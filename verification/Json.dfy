/** Parsed JSON, as Go's encoding/json presents it, and the string helpers the agent uses on it.
    A key that is absent reads as `Null`, as indexing a Go map does. */
module Json {

  datatype Json =
    | Null
    | Bool(value: bool)
    | Number(text: string)
    | Str(text: string)
    | Arr(items: seq<Json>)
    | Obj(fields: map<string, Json>)

  datatype Option<+T> = None | Some(value: T)

  /** `m[key]` on an object; `Null` when the key is absent. */
  function Get(fields: map<string, Json>, key: string): Json
  {
    if key in fields then fields[key] else Null
  }

  /** `v, _ := x.(string)` */
  function AsString(j: Json): string
  {
    if j.Str? then j.text else ""
  }

  /** `v, _ := x.([]interface{})` */
  function AsItems(j: Json): seq<Json>
  {
    if j.Arr? then j.items else []
  }

  function StringField(j: Json, key: string): string
  {
    if j.Obj? then AsString(Get(j.fields, key)) else ""
  }

  /** What is absent, or of another kind, reads as nothing. */
  lemma Accessors(fields: map<string, Json>, key: string, j: Json)
    ensures Get(fields, key) == if key in fields then fields[key] else Null
    ensures AsItems(j) == match j case Arr(items) => items case _ => []
    ensures StringField(j, key) == match j
                                   case Obj(f) => (if key in f && f[key].Str? then f[key].text else "")
                                   case _ => ""
  {
  }

  predicate HasPrefix(s: string, prefix: string)
  {
    prefix <= s
  }

  /** How many parts splitting `s` at `c` gives. */
  function Parts(s: string, c: char): nat
  {
    if s == [] then 1 else (if s[0] == c then 1 else 0) + Parts(s[1..], c)
  }

  lemma {:induction false} PartsCount(s: string, c: char)
    ensures Parts(s, c) == 1 + multiset(s)[c]
  {
    if s != [] {
      PartsCount(s[1..], c);
      assert s == [s[0]] + s[1..];
    }
  }

  function LowerChar(c: char): char
  {
    if 'A' <= c <= 'Z' then c - 'A' + 'a' else c
  }

  /** strings.ToLower on ASCII text. */
  function ToLower(s: string): (r: string)
    ensures |r| == |s|
  {
    if s == [] then [] else [LowerChar(s[0])] + ToLower(s[1..])
  }

  predicate IsSpace(c: char)
  {
    c == ' ' || c == '\t' || c == '\n' || c == '\r' || c == 11 as char || c == 12 as char
  }

  function TrimLeft(s: string): (r: string)
    ensures |r| <= |s| && r == s[|s| - |r|..]
    ensures r == [] || !IsSpace(r[0])
  {
    if s != [] && IsSpace(s[0]) then TrimLeft(s[1..]) else s
  }

  function TrimRight(s: string): (r: string)
    ensures |r| <= |s| && r == s[..|r|]
    ensures r == [] || !IsSpace(r[|r| - 1])
  {
    if s != [] && IsSpace(s[|s| - 1]) then TrimRight(s[..|s| - 1]) else s
  }

  /** strings.TrimSpace on ASCII text. */
  function TrimSpace(s: string): string
  {
    TrimRight(TrimLeft(s))
  }

  /** Lower-casing changes the letters A to Z, each on its own, and nothing else. */
  lemma {:induction false} ToLowerMeans(s: string, i: nat)
    requires i < |s|
    ensures ToLower(s)[i] == if 65 <= s[i] as int <= 90 then (s[i] as int + 32) as char else s[i]
  {
    if i > 0 {
      ToLowerMeans(s[1..], i - 1);
    }
  }

  predicate SpaceAt(s: string, i: nat)
    requires i < |s|
  {
    s[i] == ' ' || 9 <= s[i] as int <= 13
  }

  lemma {:induction false} TrimLeftMeans(s: string)
    ensures forall i :: 0 <= i < |s| - |TrimLeft(s)| ==> SpaceAt(s, i)
  {
    if s != [] && IsSpace(s[0]) {
      TrimLeftMeans(s[1..]);
      forall i | 0 <= i < |s| - |TrimLeft(s)| ensures SpaceAt(s, i) {
        assert i > 0 ==> SpaceAt(s[1..], i - 1);
      }
    }
  }

  lemma {:induction false} TrimRightMeans(s: string)
    ensures forall i :: |TrimRight(s)| <= i < |s| ==> SpaceAt(s, i)
  {
    if s != [] && IsSpace(s[|s| - 1]) {
      var init := s[..|s| - 1];
      TrimRightMeans(init);
      forall i | |TrimRight(s)| <= i < |s| ensures SpaceAt(s, i) {
        assert i < |init| ==> SpaceAt(init, i);
      }
    }
  }

  /** Trimming takes off the white space at both ends, all of it and nothing else. */
  lemma TrimSpaceMeans(s: string) returns (n: nat, m: nat)
    ensures n <= m <= |s| && TrimSpace(s) == s[n..m]
    ensures forall i :: 0 <= i < |s| && (i < n || m <= i) ==> SpaceAt(s, i)
    ensures n < m ==> !SpaceAt(s, n) && !SpaceAt(s, m - 1)
  {
    var left := TrimLeft(s);
    TrimLeftMeans(s);
    n, m := TrimmedRight(s, left);
  }

  lemma TrimmedRight(s: string, left: string) returns (n: nat, m: nat)
    requires |left| <= |s| && left == s[|s| - |left|..] && (left == [] || !IsSpace(left[0]))
    requires forall i :: 0 <= i < |s| - |left| ==> SpaceAt(s, i)
    ensures n <= m <= |s| && TrimRight(left) == s[n..m]
    ensures forall i :: 0 <= i < |s| && (i < n || m <= i) ==> SpaceAt(s, i)
    ensures n < m ==> !SpaceAt(s, n) && !SpaceAt(s, m - 1)
  {
    var r := TrimRight(left);
    TrimRightMeans(left);
    n, m := |s| - |left|, |s| - |left| + |r|;
    BothEnds(s, left, r);
    if n < m {
      assert s[n] == left[0] && s[m - 1] == r[|r| - 1];
    }
  }

  lemma BothEnds(s: string, left: string, r: string)
    requires |r| <= |left| <= |s| && left == s[|s| - |left|..] && r == left[..|r|]
    requires forall i :: 0 <= i < |s| - |left| ==> SpaceAt(s, i)
    requires forall i :: |r| <= i < |left| ==> SpaceAt(left, i)
    ensures var n := |s| - |left|;
            && r == s[n..n + |r|] && forall i :: 0 <= i < |s| && (i < n || n + |r| <= i) ==> SpaceAt(s, i)
  {
    var n := |s| - |left|;
    forall i | n + |r| <= i < |s| ensures SpaceAt(s, i) {
      assert SpaceAt(left, i - n);
    }
  }
}

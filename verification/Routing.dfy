/** Boot-time merge of a template into an existing Xray configuration. */
module RoutingMerge {
  import opened Json
  import opened Selections
  import opened StableSorts

  const LOWEST := -1
  const HIGHEST := 4

  /** The class of a routing rule; smaller classes come first. */
  function ClassifyRulePriority(rule: Json): (p: int)
    ensures LOWEST <= p <= HIGHEST
  {
    if !rule.Obj? then 4
    else if StringField(rule, "outboundTag") == "nginx" then -1
    else if HasPrefix(StringField(rule, "outboundTag"), "tunnel-") then 0
    else
      var marktag := StringField(rule, "marktag");
      if HasPrefix(marktag, "routed:") then
        if Parts(marktag, ':') == 4 then 1 else 2
      else if marktag == "home_broadband_warp" || marktag == "speedtest_warp" then 3
      else 4
  }

  /** The classes in terms of a rule's fields: "routed:" marktags with three colons in all come before
      the others. */
  lemma PriorityTable(rule: Json)
    ensures var tag, mark := StringField(rule, "outboundTag"), StringField(rule, "marktag");
            ClassifyRulePriority(rule) ==
              if !rule.Obj? then 4
              else if tag == "nginx" then -1
              else if "tunnel-" <= tag then 0
              else if "routed:" <= mark then (if multiset(mark)[':'] == 3 then 1 else 2)
              else if mark == "home_broadband_warp" || mark == "speedtest_warp" then 3
              else 4
  {
    PartsCount(StringField(rule, "marktag"), ':');
  }

  /** sort.SliceStable of the rules by priority. */
  function SortRules(rules: seq<Json>): seq<Json>
  {
    StableSort(rules, ClassifyRulePriority, LOWEST, HIGHEST)
  }

  ghost predicate AllObjects(rules: seq<Json>)
  {
    forall i :: 0 <= i < |rules| ==> rules[i].Obj?
  }

  // ----- rule signatures -----

  /** Go's byte order on strings. */
  predicate StringLe(a: string, b: string)
  {
    a == [] || (b != [] && (a[0] < b[0] || (a[0] == b[0] && StringLe(a[1..], b[1..]))))
  }

  function Insert(x: string, s: seq<string>): seq<string>
  {
    if s == [] || StringLe(x, s[0]) then [x] + s else [s[0]] + Insert(x, s[1..])
  }

  function SortStrings(s: seq<string>): seq<string>
  {
    if s == [] then [] else Insert(s[0], SortStrings(s[1..]))
  }

  function Join(parts: seq<string>, separator: string): string
  {
    if parts == [] then ""
    else if |parts| == 1 then parts[0]
    else parts[0] + separator + Join(parts[1..], separator)
  }

  function Texts(items: seq<Json>, sprint: Json -> string): (r: seq<string>)
    ensures |r| == |items|
  {
    seq(|items|, i requires 0 <= i < |items| => sprint(items[i]))
  }

  const SIGNATURE_KEYS: seq<string> :=
    ["type", "outboundTag", "balancerTag", "inboundTag", "ip", "domain", "user",
     "protocol", "network", "source", "port", "sourcePort", "marktag"]

  function SignatureParts(fields: map<string, Json>, keys: seq<string>, sprint: Json -> string): seq<string>
  {
    if keys == [] then []
    else
      var rest := SignatureParts(fields, keys[1..], sprint);
      match Get(fields, keys[0])
      case Null => rest
      case Arr(items) => [keys[0] + ":[" + Join(SortStrings(Texts(items, sprint)), ",") + "]"] + rest
      case v => [keys[0] + ":" + sprint(v)] + rest
  }

  /** The text a rule is recognised by; `sprint` is fmt.Sprint. */
  function Signature(rule: Json, sprint: Json -> string): string
  {
    if rule.Obj? then Join(SignatureParts(rule.fields, SIGNATURE_KEYS, sprint), "|") else ""
  }

  /** What a field contributes to the signature; nothing when it is absent or null. */
  function Rendered(v: Json, sprint: Json -> string): Option<string>
  {
    match v
    case Null => None
    case Arr(items) => Some("[" + Join(SortStrings(Texts(items, sprint)), ",") + "]")
    case _ => Some(sprint(v))
  }

  lemma PartsOf(fields: map<string, Json>, keys: seq<string>, sprint: Json -> string)
    requires keys != []
    ensures var rest, text := SignatureParts(fields, keys[1..], sprint), Rendered(Get(fields, keys[0]), sprint);
            SignatureParts(fields, keys, sprint) == if text.Some? then [keys[0] + ":" + text.value] + rest else rest
  {
    match Get(fields, keys[0])
    case Arr(items) =>
      var list := Join(SortStrings(Texts(items, sprint)), ",");
      assert keys[0] + ":[" + list + "]" == keys[0] + ":" + ("[" + list + "]");
    case _ =>
  }

  /** The texts of a rule are free of the separator. */
  ghost predicate Separable(fields: map<string, Json>, keys: seq<string>, sprint: Json -> string)
  {
    forall k :: k in keys && Rendered(Get(fields, k), sprint).Some? ==> '|' !in Rendered(Get(fields, k), sprint).value
  }

  /** A list of texts that can be told from its join with the separator. */
  ghost predicate Plain(parts: seq<string>)
  {
    forall i :: 0 <= i < |parts| ==> parts[i] != "" && '|' !in parts[i]
  }

  ghost predicate PlainKeys(keys: seq<string>)
  {
    && (forall i :: 0 <= i < |keys| ==> ':' !in keys[i] && '|' !in keys[i])
    && (forall i, j :: 0 <= i < j < |keys| ==> keys[i] != keys[j])
  }

  lemma {:induction false} PartsPlain(fields: map<string, Json>, keys: seq<string>, sprint: Json -> string)
    requires PlainKeys(keys) && Separable(fields, keys, sprint)
    ensures Plain(SignatureParts(fields, keys, sprint))
  {
    if keys != [] {
      PartsOf(fields, keys, sprint);
      PartsPlain(fields, keys[1..], sprint);
    }
  }

  lemma JoinTail(parts: seq<string>) returns (tail: string)
    requires parts != []
    ensures Join(parts, "|") == parts[0] + tail
    ensures |parts| == 1 ==> tail == ""
    ensures |parts| > 1 ==> tail == "|" + Join(parts[1..], "|")
  {
    tail := if |parts| == 1 then "" else "|" + Join(parts[1..], "|");
  }

  lemma SameHead(a: string, b: string, t: string, u: string, c: char)
    requires a + t == b + u && c !in a && c !in b
    requires (t == "" || t[0] == c) && (u == "" || u[0] == c)
    ensures a == b && t == u
  {
    var s := a + t;
    assert forall i :: 0 <= i < |a| ==> s[i] == a[i];
    assert forall i :: 0 <= i < |b| ==> s[i] == b[i];
    assert (t != "" ==> s[|a|] == c) && (u != "" ==> s[|b|] == c);
    assert a == s[..|a|] && b == s[..|b|] && t == s[|a|..] && u == s[|b|..];
  }

  lemma {:induction false} JoinTells(a: seq<string>, b: seq<string>)
    requires Plain(a) && Plain(b) && Join(a, "|") == Join(b, "|")
    ensures a == b
  {
    if a != [] && b != [] {
      var t := JoinTail(a);
      var u := JoinTail(b);
      SameHead(a[0], b[0], t, u, '|');
      assert |a| > 1 <==> |b| > 1;
      if |a| > 1 {
        assert t[1..] == Join(a[1..], "|") && u[1..] == Join(b[1..], "|");
        JoinTells(a[1..], b[1..]);
      }
      assert a == [a[0]] + a[1..] && b == [b[0]] + b[1..];
    }
  }

  lemma {:induction false} FirstPart(fields: map<string, Json>, keys: seq<string>, sprint: Json -> string) returns (k: string, text: string)
    requires SignatureParts(fields, keys, sprint) != []
    ensures k in keys && SignatureParts(fields, keys, sprint)[0] == k + ":" + text
  {
    PartsOf(fields, keys, sprint);
    if Rendered(Get(fields, keys[0]), sprint).Some? {
      k, text := keys[0], Rendered(Get(fields, keys[0]), sprint).value;
    } else {
      k, text := FirstPart(fields, keys[1..], sprint);
    }
  }

  /** A part tells its key and its text. */
  lemma PartTells(k: string, text: string, l: string, other: string)
    requires ':' !in k && ':' !in l && k + ":" + text == l + ":" + other
    ensures k == l && text == other
  {
    assert k + ":" + text == k + (":" + text) && l + ":" + other == l + (":" + other);
    SameHead(k, l, ":" + text, ":" + other, ':');
    assert (":" + text)[1..] == text && (":" + other)[1..] == other;
  }

  lemma {:induction false} PartsTell(a: map<string, Json>, b: map<string, Json>, keys: seq<string>, sprint: Json -> string)
    requires PlainKeys(keys) && SignatureParts(a, keys, sprint) == SignatureParts(b, keys, sprint)
    ensures forall k :: k in keys ==> Rendered(Get(a, k), sprint) == Rendered(Get(b, k), sprint)
  {
    if keys != [] {
      PartsOf(a, keys, sprint);
      PartsOf(b, keys, sprint);
      HeadsAgree(a, b, keys, sprint);
      PartsTell(a, b, keys[1..], sprint);
      assert keys == [keys[0]] + keys[1..];
    }
  }

  lemma HeadsAgree(a: map<string, Json>, b: map<string, Json>, keys: seq<string>, sprint: Json -> string)
    requires keys != [] && PlainKeys(keys) && SignatureParts(a, keys, sprint) == SignatureParts(b, keys, sprint)
    ensures Rendered(Get(a, keys[0]), sprint) == Rendered(Get(b, keys[0]), sprint)
    ensures SignatureParts(a, keys[1..], sprint) == SignatureParts(b, keys[1..], sprint)
  {
    var parts, key := SignatureParts(a, keys, sprint), keys[0];
    PartsOf(a, keys, sprint);
    PartsOf(b, keys, sprint);
    var x, y := Rendered(Get(a, key), sprint), Rendered(Get(b, key), sprint);
    if x.Some? && y.Some? {
      assert parts[0] == key + ":" + x.value && parts[0] == key + ":" + y.value;
      assert parts[1..] == SignatureParts(a, keys[1..], sprint) && parts[1..] == SignatureParts(b, keys[1..], sprint);
      PartTells(key, x.value, key, y.value);
    } else if x.Some? {
      NotFirst(b, keys, x.value, sprint);
    } else if y.Some? {
      NotFirst(a, keys, y.value, sprint);
    }
  }

  /** When the first key contributes nothing, no part begins with it. */
  lemma NotFirst(fields: map<string, Json>, keys: seq<string>, text: string, sprint: Json -> string)
    requires keys != [] && PlainKeys(keys) && SignatureParts(fields, keys[1..], sprint) != []
    ensures SignatureParts(fields, keys[1..], sprint)[0] != keys[0] + ":" + text
  {
    var l, other := FirstPart(fields, keys[1..], sprint);
    var i :| 0 <= i < |keys[1..]| && keys[1..][i] == l;
    assert keys[1 + i] == l;
    if l + ":" + other == keys[0] + ":" + text {
      PartTells(l, other, keys[0], text);
    }
  }

  lemma {:induction false} SameParts(a: map<string, Json>, b: map<string, Json>, keys: seq<string>, sprint: Json -> string)
    requires forall k :: k in keys ==> Rendered(Get(a, k), sprint) == Rendered(Get(b, k), sprint)
    ensures SignatureParts(a, keys, sprint) == SignatureParts(b, keys, sprint)
  {
    if keys != [] {
      PartsOf(a, keys, sprint);
      PartsOf(b, keys, sprint);
      SameParts(a, b, keys[1..], sprint);
    }
  }

  lemma KeysPlain()
    ensures PlainKeys(SIGNATURE_KEYS)
  {
    var keys := SIGNATURE_KEYS;
    forall i | 0 <= i < |keys| ensures ':' !in keys[i] && '|' !in keys[i] {
    }
    forall i, j | 0 <= i < j < |keys| ensures keys[i] != keys[j] {
    }
  }

  const THIRTEEN: set<string> :=
    {"type", "outboundTag", "balancerTag", "inboundTag", "ip", "domain", "user", "protocol", "network", "source",
     "port", "sourcePort", "marktag"}

  /** Two rules without the separator in their texts have one signature exactly when these thirteen
      fields read the same in both, lists up to the order of their texts. */
  lemma SignatureTells(a: map<string, Json>, b: map<string, Json>, sprint: Json -> string)
    requires Separable(a, SIGNATURE_KEYS, sprint) && Separable(b, SIGNATURE_KEYS, sprint)
    ensures Signature(Obj(a), sprint) == Signature(Obj(b), sprint) <==>
              forall k :: k in THIRTEEN ==> Rendered(Get(a, k), sprint) == Rendered(Get(b, k), sprint)
  {
    var keys := SIGNATURE_KEYS;
    KeysPlain();
    var same := forall k :: k in keys ==> Rendered(Get(a, k), sprint) == Rendered(Get(b, k), sprint);
    if Signature(Obj(a), sprint) == Signature(Obj(b), sprint) {
      PartsPlain(a, keys, sprint);
      PartsPlain(b, keys, sprint);
      JoinTells(SignatureParts(a, keys, sprint), SignatureParts(b, keys, sprint));
      PartsTell(a, b, keys, sprint);
    }
    if same {
      SameParts(a, b, keys, sprint);
    }
  }

  /** Rules that are no objects, and those without any of the fields, have the empty signature. */
  lemma SignatureOfNothing(rule: Json, sprint: Json -> string)
    ensures !rule.Obj? ==> Signature(rule, sprint) == ""
    ensures rule.Obj? && (forall k :: k in SIGNATURE_KEYS ==> Get(rule.fields, k) == Null) ==> Signature(rule, sprint) == ""
  {
    if rule.Obj? && forall k :: k in SIGNATURE_KEYS ==> Get(rule.fields, k) == Null {
      NoParts(rule.fields, SIGNATURE_KEYS, sprint);
    }
  }

  lemma {:induction false} NoParts(fields: map<string, Json>, keys: seq<string>, sprint: Json -> string)
    requires forall k :: k in keys ==> Get(fields, k) == Null
    ensures SignatureParts(fields, keys, sprint) == []
  {
    if keys != [] {
      NoParts(fields, keys[1..], sprint);
    }
  }

  // ----- merging rules -----

  ghost predicate TemplateHasMarktag(template: seq<Json>, m: string)
  {
    exists i :: 0 <= i < |template| && StringField(template[i], "marktag") == m
  }

  ghost predicate TemplateHasSignature(template: seq<Json>, s: string, sprint: Json -> string)
  {
    exists i :: 0 <= i < |template| && Signature(template[i], sprint) == s
  }

  /** An existing rule the template does not replace. */
  ghost predicate Survives(rule: Json, template: seq<Json>, sprint: Json -> string)
  {
    rule.Obj? ==>
      && !(StringField(rule, "marktag") != "" && TemplateHasMarktag(template, StringField(rule, "marktag")))
      && !TemplateHasSignature(template, Signature(rule, sprint), sprint)
  }

  ghost function Survivors(rules: seq<Json>, template: seq<Json>, sprint: Json -> string): seq<Json>
  {
    if rules == [] then []
    else if Survives(rules[0], template, sprint) then [rules[0]] + Survivors(rules[1..], template, sprint)
    else Survivors(rules[1..], template, sprint)
  }

  ghost function MergedRules(existing: seq<Json>, template: seq<Json>, sprint: Json -> string): seq<Json>
  {
    SortRules(template + Survivors(existing, template, sprint))
  }

  /** An existing rule that the template makes superfluous: an object with the marktag, or with the
      signature, of one of its rules. */
  ghost predicate Superfluous(rule: Json, template: seq<Json>, sprint: Json -> string)
  {
    && rule.Obj?
    && ((StringField(rule, "marktag") != "" && exists t :: t in template && StringField(t, "marktag") == StringField(rule, "marktag"))
        || exists t :: t in template && Signature(t, sprint) == Signature(rule, sprint))
  }

  lemma SurvivesUnless(rule: Json, template: seq<Json>, sprint: Json -> string)
    ensures Survives(rule, template, sprint) <==> !Superfluous(rule, template, sprint)
  {
  }

  lemma {:induction false} SurvivorsAre(rules: seq<Json>, template: seq<Json>, sprint: Json -> string)
    ensures Survivors(rules, template, sprint) == Filter(rules, rule => !Superfluous(rule, template, sprint))
  {
    if rules != [] {
      var init, last := rules[..|rules| - 1], rules[|rules| - 1];
      assert rules == init + [last];
      SurvivorsAppend(init, [last], template, sprint);
      SurvivesUnless(last, template, sprint);
      assert Survivors([last], template, sprint) == if Survives(last, template, sprint) then [last] else [];
      SurvivorsAre(init, template, sprint);
    }
  }

  /** The merge keeps every template rule and exactly the existing rules that are not superfluous,
      smaller classes first, and within a class the template's rules before the existing ones, each
      in their order. */
  lemma MergedRulesMean(existing: seq<Json>, template: seq<Json>, sprint: Json -> string, p: int)
    ensures var kept := Filter(existing, rule => !Superfluous(rule, template, sprint));
            var r := MergedRules(existing, template, sprint);
            && (forall x :: multiset(r)[x] == multiset(template)[x] + multiset(kept)[x])
            && (forall i, j :: 0 <= i < j < |r| ==> ClassifyRulePriority(r[i]) <= ClassifyRulePriority(r[j]))
            && OfClass(r, ClassifyRulePriority, p) == OfClass(template, ClassifyRulePriority, p) + OfClass(kept, ClassifyRulePriority, p)
  {
    var kept := Filter(existing, rule => !Superfluous(rule, template, sprint));
    SurvivorsAre(existing, template, sprint);
    StableSortMeans(template + kept, ClassifyRulePriority, LOWEST, HIGHEST, p);
    OfClassAppend(template, kept, ClassifyRulePriority, p);
  }

  lemma {:induction false} SurvivorsAppend(a: seq<Json>, b: seq<Json>, template: seq<Json>, sprint: Json -> string)
    ensures Survivors(a + b, template, sprint) == Survivors(a, template, sprint) + Survivors(b, template, sprint)
  {
    if a == [] {
      assert a + b == b;
    } else {
      assert (a + b)[1..] == a[1..] + b;
      SurvivorsAppend(a[1..], b, template, sprint);
    }
  }

  lemma MarktagOneMore(template: seq<Json>, n: nat, m: string)
    requires n < |template|
    ensures TemplateHasMarktag(template[..n + 1], m)
        <==> TemplateHasMarktag(template[..n], m) || StringField(template[n], "marktag") == m
  {
    var before, after := template[..n], template[..n + 1];
    assert after[n] == template[n];
    if TemplateHasMarktag(before, m) {
      var i :| 0 <= i < |before| && StringField(before[i], "marktag") == m;
      assert after[i] == before[i];
    }
    if TemplateHasMarktag(after, m) {
      var i :| 0 <= i < |after| && StringField(after[i], "marktag") == m;
      assert i == n || after[i] == before[i];
    }
  }

  lemma SignatureOneMore(template: seq<Json>, n: nat, s: string, sprint: Json -> string)
    requires n < |template|
    ensures TemplateHasSignature(template[..n + 1], s, sprint)
        <==> TemplateHasSignature(template[..n], s, sprint) || Signature(template[n], sprint) == s
  {
    var before, after := template[..n], template[..n + 1];
    assert after[n] == template[n];
    if TemplateHasSignature(before, s, sprint) {
      var i :| 0 <= i < |before| && Signature(before[i], sprint) == s;
      assert after[i] == before[i];
    }
    if TemplateHasSignature(after, s, sprint) {
      var i :| 0 <= i < |after| && Signature(after[i], sprint) == s;
      assert i == n || after[i] == before[i];
    }
  }

  /** The marktags that the template uses. */
  ghost predicate MarksOf(marktags: set<string>, template: seq<Json>)
  {
    forall m: string :: m in marktags <==> m != "" && TemplateHasMarktag(template, m)
  }

  ghost predicate SignaturesOf(signatures: set<string>, template: seq<Json>, sprint: Json -> string)
  {
    forall s: string :: s in signatures <==> TemplateHasSignature(template, s, sprint)
  }

  lemma OneMoreMark(marktags: set<string>, template: seq<Json>, i: nat)
    requires i < |template| && MarksOf(marktags, template[..i])
    ensures var m := StringField(template[i], "marktag");
            MarksOf(if m != "" then marktags + {m} else marktags, template[..i + 1])
  {
    forall s: string
      ensures TemplateHasMarktag(template[..i + 1], s) <==> TemplateHasMarktag(template[..i], s) || StringField(template[i], "marktag") == s
    {
      MarktagOneMore(template, i, s);
    }
  }

  lemma OneMoreSignature(signatures: set<string>, template: seq<Json>, i: nat, sprint: Json -> string)
    requires i < |template| && SignaturesOf(signatures, template[..i], sprint)
    ensures SignaturesOf(signatures + {Signature(template[i], sprint)}, template[..i + 1], sprint)
  {
    var own := Signature(template[i], sprint);
    forall s: string
      ensures TemplateHasSignature(template[..i + 1], s, sprint) <==> TemplateHasSignature(template[..i], s, sprint) || own == s
    {
      SignatureOneMore(template, i, s, sprint);
    }
  }

  method TemplateMarks(template: seq<Json>, sprint: Json -> string) returns (marktags: set<string>, signatures: set<string>)
    ensures MarksOf(marktags, template) && SignaturesOf(signatures, template, sprint)
  {
    marktags, signatures := {}, {};
    for i := 0 to |template|
      invariant MarksOf(marktags, template[..i]) && SignaturesOf(signatures, template[..i], sprint)
    {
      OneMoreMark(marktags, template, i);
      OneMoreSignature(signatures, template, i, sprint);
      var m := StringField(template[i], "marktag");
      if template[i].Obj? && m != "" {
        marktags := marktags + {m};
      }
      signatures := signatures + {Signature(template[i], sprint)};
    }
    assert template[..|template|] == template;
  }

  method MergeRules(existing: seq<Json>, template: seq<Json>, sprint: Json -> string) returns (rules: seq<Json>)
    ensures rules == MergedRules(existing, template, sprint)
  {
    var tplMarktags, tplSignatures := TemplateMarks(template, sprint);
    rules := template;
    assert existing[..0] == [];
    for i := 0 to |existing|
      invariant rules == template + Survivors(existing[..i], template, sprint)
    {
      var r := existing[i];
      assert existing[..i + 1] == existing[..i] + [r];
      SurvivorsAppend(existing[..i], [r], template, sprint);
      assert Survivors([r], template, sprint) == if Survives(r, template, sprint) then [r] else [];
      if !r.Obj? {
        rules := rules + [r];
      } else {
        var m := StringField(r, "marktag");
        if m != "" && m in tplMarktags {
          continue;
        }
        if Signature(r, sprint) in tplSignatures {
          continue;
        }
        rules := rules + [r];
      }
    }
    assert existing[..|existing|] == existing;
    rules := SortRules(rules);
  }

  // ----- idempotence of the rule merge -----

  ghost function NonObjects(rules: seq<Json>): seq<Json>
  {
    if rules == [] then []
    else if rules[0].Obj? then NonObjects(rules[1..])
    else [rules[0]] + NonObjects(rules[1..])
  }

  /** Of the template's own rules, exactly the non-objects survive a second merge. */
  lemma {:induction false} TemplateSurvivors(part: seq<Json>, template: seq<Json>, sprint: Json -> string)
    requires forall x <- part :: x in template
    ensures Survivors(part, template, sprint) == NonObjects(part)
  {
    if part != [] {
      assert part[0] in template;
      TemplateSurvivors(part[1..], template, sprint);
    }
  }

  lemma {:induction false} SurvivorsStable(rules: seq<Json>, template: seq<Json>, sprint: Json -> string)
    ensures Survivors(Survivors(rules, template, sprint), template, sprint) == Survivors(rules, template, sprint)
  {
    if rules != [] {
      SurvivorsStable(rules[1..], template, sprint);
    }
  }

  /** Dropping replaced rules and picking one class commute. */
  lemma {:induction false} SurvivorsOfClass(rules: seq<Json>, template: seq<Json>, sprint: Json -> string, p: int)
    ensures OfClass(Survivors(rules, template, sprint), ClassifyRulePriority, p)
         == Survivors(OfClass(rules, ClassifyRulePriority, p), template, sprint)
  {
    if rules != [] {
      var key := ClassifyRulePriority;
      var rest := OfClass(rules[1..], key, p);
      SurvivorsOfClass(rules[1..], template, sprint, p);
      if key(rules[0]) == p {
        SurvivorsAppend([rules[0]], rest, template, sprint);
        assert Survivors([rules[0]], template, sprint) == if Survives(rules[0], template, sprint) then [rules[0]] else [];
      }
    }
  }

  lemma RulesWithin(rules: seq<Json>)
    ensures Within(rules, ClassifyRulePriority, LOWEST, HIGHEST)
  {
  }

  lemma SurvivorsOfSorted(rules: seq<Json>, template: seq<Json>, sprint: Json -> string, from: int)
    ensures Survivors(StableSort(rules, ClassifyRulePriority, from, HIGHEST), template, sprint)
         == StableSort(Survivors(rules, template, sprint), ClassifyRulePriority, from, HIGHEST)
    decreases HIGHEST + 1 - from
  {
    if from <= HIGHEST {
      SurvivorsAppend(OfClass(rules, ClassifyRulePriority, from),
                      StableSort(rules, ClassifyRulePriority, from + 1, HIGHEST), template, sprint);
      SurvivorsOfClass(rules, template, sprint, from);
      SurvivorsOfSorted(rules, template, sprint, from + 1);
    }
  }

  lemma NonObjectsEmpty(rules: seq<Json>)
    ensures NonObjects(rules) == [] <==> AllObjects(rules)
  {
    if rules != [] {
      NonObjectsEmpty(rules[1..]);
      if AllObjects(rules) {
        assert AllObjects(rules[1..]);
      }
      if AllObjects(rules[1..]) && rules[0].Obj? {
        forall i | 0 <= i < |rules| ensures rules[i].Obj? {
          assert i > 0 ==> rules[i] == rules[1..][i - 1];
        }
      }
    }
  }

  /** The survivors of a second merge are the template's non-objects and the first survivors. */
  lemma SecondMerge(existing: seq<Json>, template: seq<Json>, sprint: Json -> string)
    ensures MergedRules(MergedRules(existing, template, sprint), template, sprint)
         == SortRules(template + (NonObjects(template) + Survivors(existing, template, sprint)))
  {
    var f := Survivors(existing, template, sprint);
    SurvivorsOfSorted(template + f, template, sprint, LOWEST);
    SurvivorsAppend(template, f, template, sprint);
    TemplateSurvivors(template, template, sprint);
    SurvivorsStable(existing, template, sprint);
    var kept := NonObjects(template) + f;
    RulesWithin(kept);
    StableSortOfPartlySorted(template, kept, ClassifyRulePriority, LOWEST, HIGHEST);
  }

  /** Merging the rules a second time changes nothing exactly when the template's rules are all objects. */
  lemma MergeRulesIdempotent(existing: seq<Json>, template: seq<Json>, sprint: Json -> string)
    ensures MergedRules(MergedRules(existing, template, sprint), template, sprint) == MergedRules(existing, template, sprint)
        <==> AllObjects(template)
  {
    var f := Survivors(existing, template, sprint);
    SecondMerge(existing, template, sprint);
    NonObjectsEmpty(template);
    RulesWithin(template + f);
    RulesWithin(template + (NonObjects(template) + f));
    SortedLength(template + f, ClassifyRulePriority, LOWEST, HIGHEST);
    SortedLength(template + (NonObjects(template) + f), ClassifyRulePriority, LOWEST, HIGHEST);
    if AllObjects(template) {
      assert NonObjects(template) + f == f;
    }
  }

  // ----- merging whole configurations -----

  /** The template's fields but the rules, and those still to come, over the existing ones. */
  function Overlaid(existing: map<string, Json>, template: map<string, Json>, toCome: set<string>): map<string, Json>
  {
    existing + (template - (toCome + {"rules"}))
  }

  lemma OverlayEnds(existing: map<string, Json>, template: map<string, Json>)
    ensures Overlaid(existing, template, template.Keys) == existing
    ensures Overlaid(existing, template, {}) == existing + (template - {"rules"})
  {
    assert {} + {"rules"} == {"rules"};
  }

  lemma OverlayOneMore(existing: map<string, Json>, template: map<string, Json>, keys: set<string>, k: string)
    requires keys <= template.Keys && k in keys
    ensures var fields := Overlaid(existing, template, keys);
            Overlaid(existing, template, keys - {k}) == if k == "rules" then fields else fields[k := template[k]]
  {
  }

  /** Copies every template field but the rules over the existing ones. */
  method Overlay(existing: map<string, Json>, template: map<string, Json>) returns (fields: map<string, Json>)
    ensures fields == existing + (template - {"rules"})
  {
    fields := existing;
    var keys := template.Keys;
    OverlayEnds(existing, template);
    while keys != {}
      invariant keys <= template.Keys && fields == Overlaid(existing, template, keys)
      decreases |keys|
    {
      var k :| k in keys;
      OverlayOneMore(existing, template, keys, k);
      keys := keys - {k};
      if k != "rules" {
        fields := fields[k := template[k]];
      }
    }
    assert keys == {};
  }

  /** Merging the routing blocks. A block that is not an object reads as absent; Go's nil
      map is written back as null. */
  method MergeRouting(existing: Json, template: Json, sprint: Json -> string) returns (merged: Json)
    ensures merged == MergedRouting(existing, template, sprint)
  {
    if !template.Obj? {
      return if existing.Obj? then existing else Null;
    }
    if !existing.Obj? {
      return template;
    }
    var fields := Overlay(existing.fields, template.fields);
    var rules := MergeRules(AsItems(Get(existing.fields, "rules")), AsItems(Get(template.fields, "rules")), sprint);
    merged := Obj(fields["rules" := Arr(rules)]);
  }

  ghost function MergedRouting(existing: Json, template: Json, sprint: Json -> string): Json
  {
    if !template.Obj? then if existing.Obj? then existing else Null
    else if !existing.Obj? then template
    else
      var rules := MergedRules(AsItems(Get(existing.fields, "rules")), AsItems(Get(template.fields, "rules")), sprint);
      Obj((existing.fields + (template.fields - {"rules"}))["rules" := Arr(rules)])
  }

  /** Merging two routing blocks, field by field: the rules are merged on their own, of the other
      fields the template's win. */
  lemma MergedRoutingMeans(existing: map<string, Json>, template: map<string, Json>, sprint: Json -> string, key: string)
    ensures var r := MergedRouting(Obj(existing), Obj(template), sprint);
            var before := if "rules" in existing && existing["rules"].Arr? then existing["rules"].items else [];
            var added := if "rules" in template && template["rules"].Arr? then template["rules"].items else [];
            && r.Obj? && "rules" in r.fields && r.fields["rules"] == Arr(MergedRules(before, added, sprint))
            && (key in r.fields <==> key in existing || key in template || key == "rules")
            && (key != "rules" && key in template ==> r.fields[key] == template[key])
            && (key != "rules" && key in existing && key !in template ==> r.fields[key] == existing[key])
  {
  }

  /** A block that is no object is passed over. */
  lemma MissingBlocks(existing: Json, template: Json, sprint: Json -> string)
    ensures template.Obj? && !existing.Obj? ==> MergedRouting(existing, template, sprint) == template
    ensures !template.Obj? && existing.Obj? ==> MergedRouting(existing, template, sprint) == existing
    ensures !template.Obj? && !existing.Obj? ==> MergedRouting(existing, template, sprint) == Null
  {
  }

  /** When a second merge of the same routing template changes nothing. */
  ghost predicate RoutingSettles(existing: Json, template: Json)
  {
    template.Obj? ==>
      var rules := Get(template.fields, "rules");
      if existing.Obj? then AllObjects(AsItems(rules))
      else rules.Arr? && AllObjects(rules.items) && Sorted(rules.items, ClassifyRulePriority)
  }

  lemma MergeRoutingIdempotent(existing: Json, template: Json, sprint: Json -> string)
    ensures MergedRouting(MergedRouting(existing, template, sprint), template, sprint) == MergedRouting(existing, template, sprint)
        <==> RoutingSettles(existing, template)
  {
    if template.Obj? {
      if existing.Obj? {
        RemergeOverObject(existing, template, sprint);
      } else {
        RemergeOverNothing(template, sprint);
      }
    }
  }

  lemma RemergeOverObject(existing: Json, template: Json, sprint: Json -> string)
    requires existing.Obj? && template.Obj?
    ensures MergedRouting(MergedRouting(existing, template, sprint), template, sprint) == MergedRouting(existing, template, sprint)
        <==> AllObjects(AsItems(Get(template.fields, "rules")))
  {
    var eRules, tRules := AsItems(Get(existing.fields, "rules")), AsItems(Get(template.fields, "rules"));
    MergeRulesIdempotent(eRules, tRules, sprint);
    var first := MergedRules(eRules, tRules, sprint);
    var second := MergedRules(first, tRules, sprint);
    OverlayTwice(existing.fields, template.fields, Arr(first), Arr(second));
    var others := existing.fields + (template.fields - {"rules"});
    assert MergedRouting(existing, template, sprint) == Obj(others["rules" := Arr(first)]);
    assert Get(others["rules" := Arr(first)], "rules") == Arr(first);
    OneField(others, Arr(first), Arr(second));
  }

  lemma OverlayTwice(existing: map<string, Json>, template: map<string, Json>, first: Json, second: Json)
    ensures var others := existing + (template - {"rules"});
            (others["rules" := first] + (template - {"rules"}))["rules" := second] == others["rules" := second]
  {
  }

  lemma OneField(fields: map<string, Json>, a: Json, b: Json)
    ensures fields["rules" := a] == fields["rules" := b] <==> a == b
  {
    assert fields["rules" := a]["rules"] == a && fields["rules" := b]["rules"] == b;
  }

  lemma RemergeOverNothing(template: Json, sprint: Json -> string)
    requires template.Obj?
    ensures MergedRouting(template, template, sprint) == template <==> RoutingSettles(Null, template)
  {
    var rules := Get(template.fields, "rules");
    var merged := Arr(MergedRules(AsItems(rules), AsItems(rules), sprint));
    SelfMerge(AsItems(rules), sprint);
    assert template.fields + (template.fields - {"rules"}) == template.fields;
    assert MergedRouting(template, template, sprint) == Obj(template.fields["rules" := merged]);
    if "rules" in template.fields {
      assert template.fields == template.fields["rules" := rules];
      OneField(template.fields, merged, rules);
    }
  }

  /** Merging a template with itself leaves it alone exactly when its rules are sorted objects. */
  lemma SelfMerge(template: seq<Json>, sprint: Json -> string)
    ensures MergedRules(template, template, sprint) == template
        <==> AllObjects(template) && Sorted(template, ClassifyRulePriority)
  {
    TemplateSurvivors(template, template, sprint);
    NonObjectsEmpty(template);
    var all := template + NonObjects(template);
    RulesWithin(all);
    RulesWithin(template);
    SortedLength(all, ClassifyRulePriority, LOWEST, HIGHEST);
    StableSortUnique(template, template, ClassifyRulePriority, LOWEST, HIGHEST);
    if AllObjects(template) {
      assert all == template;
    }
  }

  // ----- merging arrays by tag -----

  ghost predicate TemplateHasTag(template: seq<Json>, tag: string)
  {
    exists i :: 0 <= i < |template| && StringField(template[i], "tag") == tag
  }

  ghost function Untouched(items: seq<Json>, template: seq<Json>): seq<Json>
  {
    if items == [] then []
    else
      var tag := StringField(items[0], "tag");
      if tag != "" && TemplateHasTag(template, tag) then Untouched(items[1..], template)
      else [items[0]] + Untouched(items[1..], template)
  }

  lemma {:induction false} UntouchedAppend(a: seq<Json>, b: seq<Json>, template: seq<Json>)
    ensures Untouched(a + b, template) == Untouched(a, template) + Untouched(b, template)
  {
    if a == [] {
      assert a + b == b;
    } else {
      assert (a + b)[1..] == a[1..] + b;
      UntouchedAppend(a[1..], b, template);
    }
  }

  method MergeTaggedArray(existing: Json, template: Json) returns (merged: Json)
    ensures merged == MergedTagged(existing, template)
  {
    var items, tpl := AsItems(existing), AsItems(template);
    var tplTags: set<string> := {};
    for i := 0 to |tpl|
      invariant forall t :: t in tplTags <==> t != "" && exists k :: 0 <= k < i && StringField(tpl[k], "tag") == t
    {
      if tpl[i].Obj? {
        var tag := StringField(tpl[i], "tag");
        if tag != "" {
          tplTags := tplTags + {tag};
        }
      }
    }
    var r := tpl;
    assert items[..0] == [];
    for i := 0 to |items|
      invariant r == tpl + Untouched(items[..i], tpl)
    {
      var item := items[i];
      assert items[..i + 1] == items[..i] + [item];
      UntouchedAppend(items[..i], [item], tpl);
      if !item.Obj? {
        r := r + [item];
        continue;
      }
      var tag := StringField(item, "tag");
      if tag != "" && tag in tplTags {
        continue;
      }
      r := r + [item];
    }
    assert items[..|items|] == items;
    merged := Arr(r);
  }

  ghost function MergedTagged(existing: Json, template: Json): Json
  {
    Arr(AsItems(template) + Untouched(AsItems(existing), AsItems(template)))
  }

  /** Of two arrays the template's items stay, and behind them the existing items without a tag or
      with a tag that no template item carries. */
  lemma MergedTaggedMeans(existing: Json, template: Json)
    ensures var before := if existing.Arr? then existing.items else [];
            var added := if template.Arr? then template.items else [];
            MergedTagged(existing, template) == Arr(added + Filter(before, item =>
              StringField(item, "tag") == "" || !exists t :: t in added && StringField(t, "tag") == StringField(item, "tag")))
  {
    UntouchedAre(AsItems(existing), AsItems(template));
  }

  lemma {:induction false} UntouchedAre(items: seq<Json>, template: seq<Json>)
    ensures Untouched(items, template) == Filter(items, item =>
              StringField(item, "tag") == "" || !exists t :: t in template && StringField(t, "tag") == StringField(item, "tag"))
  {
    if items != [] {
      var init, last := items[..|items| - 1], items[|items| - 1];
      assert items == init + [last];
      UntouchedAppend(init, [last], template);
      assert Untouched([last], template) ==
        if StringField(last, "tag") != "" && TemplateHasTag(template, StringField(last, "tag")) then [] else [last];
      UntouchedAre(init, template);
    }
  }

  ghost predicate FullyTagged(items: seq<Json>)
  {
    forall i :: 0 <= i < |items| ==> StringField(items[i], "tag") != ""
  }

  lemma {:induction false} UntouchedTemplate(part: seq<Json>, template: seq<Json>)
    requires forall x <- part :: x in template
    ensures Untouched(part, template) == [] <==> FullyTagged(part)
  {
    if part != [] {
      assert part[0] in template;
      UntouchedTemplate(part[1..], template);
      if FullyTagged(part[1..]) && StringField(part[0], "tag") != "" {
        forall i | 0 <= i < |part| ensures StringField(part[i], "tag") != "" {
          assert i > 0 ==> part[i] == part[1..][i - 1];
        }
      }
      if FullyTagged(part) {
        assert FullyTagged(part[1..]);
      }
    }
  }

  lemma {:induction false} UntouchedStable(items: seq<Json>, template: seq<Json>)
    ensures Untouched(Untouched(items, template), template) == Untouched(items, template)
  {
    if items != [] {
      UntouchedStable(items[1..], template);
    }
  }

  /** Merging an array a second time changes nothing exactly when every template item has a tag. */
  lemma MergeTaggedIdempotent(existing: Json, template: Json)
    ensures MergedTagged(MergedTagged(existing, template), template) == MergedTagged(existing, template)
        <==> FullyTagged(AsItems(template))
  {
    var tpl := AsItems(template);
    var kept := Untouched(AsItems(existing), tpl);
    UntouchedAppend(tpl, kept, tpl);
    UntouchedTemplate(tpl, tpl);
    UntouchedStable(AsItems(existing), tpl);
    assert AsItems(MergedTagged(MergedTagged(existing, template), template)) == tpl + (Untouched(tpl, tpl) + kept);
    if FullyTagged(tpl) {
      assert Untouched(tpl, tpl) + kept == kept;
    }
  }

  // ----- the configuration as a whole -----

  method MergeXrayConfig(existing: map<string, Json>, template: map<string, Json>, sprint: Json -> string)
    returns (result: map<string, Json>)
    ensures result == MergedConfig(existing, template, sprint)
  {
    ghost var entries := MergedEntries(existing, template, sprint);
    result := existing;
    var keys := template.Keys;
    while keys != {}
      invariant keys <= template.Keys
      invariant result == existing + (entries - keys)
      decreases |keys|
    {
      var k :| k in keys;
      var v := MergeEntry(existing, template, sprint, k);
      OneMoreEntry(existing, entries, keys, k);
      result := result[k := v];
      keys := keys - {k};
    }
    assert entries - {} == entries;
  }

  lemma OneMoreEntry(existing: map<string, Json>, entries: map<string, Json>, keys: set<string>, k: string)
    requires k in keys && k in entries
    ensures existing + (entries - (keys - {k})) == (existing + (entries - keys))[k := entries[k]]
  {
  }

  method MergeEntry(existing: map<string, Json>, template: map<string, Json>, sprint: Json -> string, k: string)
    returns (v: Json)
    requires k in template
    ensures v == MergedEntry(existing, template, sprint, k)
  {
    v := template[k];
    if k == "inbounds" || k == "outbounds" {
      v := MergeTaggedArray(Get(existing, k), v);
    } else if k == "routing" {
      v := MergeRouting(Get(existing, k), v, sprint);
    }
  }

  ghost function MergedEntry(existing: map<string, Json>, template: map<string, Json>, sprint: Json -> string, k: string): Json
    requires k in template
  {
    if k == "inbounds" || k == "outbounds" then MergedTagged(Get(existing, k), template[k])
    else if k == "routing" then MergedRouting(Get(existing, k), template[k], sprint)
    else template[k]
  }

  ghost function MergedEntries(existing: map<string, Json>, template: map<string, Json>, sprint: Json -> string): (r: map<string, Json>)
    ensures r.Keys == template.Keys
  {
    map k | k in template :: MergedEntry(existing, template, sprint, k)
  }

  ghost function MergedConfig(existing: map<string, Json>, template: map<string, Json>, sprint: Json -> string): map<string, Json>
  {
    existing + MergedEntries(existing, template, sprint)
  }

  /** Merging whole configurations, section by section. */
  lemma MergedConfigMeans(existing: map<string, Json>, template: map<string, Json>, sprint: Json -> string, key: string)
    ensures var r := MergedConfig(existing, template, sprint);
            var before := if key in existing then existing[key] else Null;
            && (key in r <==> key in existing || key in template)
            && (key in existing && key !in template ==> r[key] == existing[key])
            && (key in template && (key == "inbounds" || key == "outbounds") ==> r[key] == MergedTagged(before, template[key]))
            && (key in template && key == "routing" ==> r[key] == MergedRouting(before, template[key], sprint))
            && (key in template && key !in {"inbounds", "outbounds", "routing"} ==> r[key] == template[key])
  {
  }

  /** When a second merge of the same template changes nothing. */
  ghost predicate ConfigSettles(existing: map<string, Json>, template: map<string, Json>)
  {
    && ("inbounds" in template ==> FullyTagged(AsItems(template["inbounds"])))
    && ("outbounds" in template ==> FullyTagged(AsItems(template["outbounds"])))
    && ("routing" in template ==> RoutingSettles(Get(existing, "routing"), template["routing"]))
  }

  /** Restarting the agent on the same template keeps the configuration as the first merge
      left it, for exactly the templates and configurations of `ConfigSettles`. */
  lemma MergeXrayConfigIdempotent(existing: map<string, Json>, template: map<string, Json>, sprint: Json -> string)
    ensures MergedConfig(MergedConfig(existing, template, sprint), template, sprint) == MergedConfig(existing, template, sprint)
        <==> ConfigSettles(existing, template)
  {
    var once := MergedConfig(existing, template, sprint);
    var twice := MergedConfig(once, template, sprint);
    forall k | k in template
      ensures twice[k] == once[k] <==>
                && (k == "inbounds" || k == "outbounds" ==> FullyTagged(AsItems(template[k])))
                && (k == "routing" ==> RoutingSettles(Get(existing, k), template[k]))
    {
      MergeTaggedIdempotent(Get(existing, k), template[k]);
      MergeRoutingIdempotent(Get(existing, k), template[k], sprint);
    }
    assert forall k :: k in once && k !in template ==> twice[k] == once[k];
    assert twice.Keys == once.Keys;
    if ConfigSettles(existing, template) {
      assert forall k :: k in once ==> twice[k] == once[k];
    } else {
      assert exists k :: k in template && twice[k] != once[k];
    }
  }

  // ----- what a signature does not depend on -----

  lemma {:induction false} StringLeTotal(a: string, b: string)
    ensures StringLe(a, b) || StringLe(b, a)
    ensures StringLe(a, b) && StringLe(b, a) ==> a == b
  {
    if a != [] && b != [] && a[0] == b[0] {
      StringLeTotal(a[1..], b[1..]);
      assert a == [a[0]] + a[1..] && b == [b[0]] + b[1..];
    }
  }

  lemma {:induction false} StringLeTransitive(a: string, b: string, c: string)
    requires StringLe(a, b) && StringLe(b, c)
    ensures StringLe(a, c)
  {
    if a != [] && a[0] == b[0] && b[0] == c[0] {
      StringLeTransitive(a[1..], b[1..], c[1..]);
    }
  }

  ghost predicate Ascending(s: seq<string>)
  {
    forall i, j :: 0 <= i < j < |s| ==> StringLe(s[i], s[j])
  }

  lemma {:induction false} InsertAscending(x: string, s: seq<string>)
    requires Ascending(s)
    ensures Ascending(Insert(x, s)) && multiset(Insert(x, s)) == multiset(s) + multiset{x}
  {
    if s == [] {
      return;
    }
    assert s == [s[0]] + s[1..];
    StringLeTotal(x, s[0]);
    if StringLe(x, s[0]) {
      forall i | 0 <= i < |s| ensures StringLe(x, s[i]) {
        if i > 0 {
          StringLeTransitive(x, s[0], s[i]);
        }
      }
    } else {
      var rest := Insert(x, s[1..]);
      InsertAscending(x, s[1..]);
      forall i | 0 <= i < |rest| ensures StringLe(s[0], rest[i]) {
        assert rest[i] in multiset(rest);
        assert rest[i] in multiset(s[1..]) || rest[i] == x;
      }
    }
  }

  /** The texts of a list come in order, each as often as before. */
  lemma {:induction false} SortStringsSorts(s: seq<string>)
    ensures Ascending(SortStrings(s)) && multiset(SortStrings(s)) == multiset(s)
  {
    if s != [] {
      assert s == [s[0]] + s[1..];
      SortStringsSorts(s[1..]);
      InsertAscending(s[0], SortStrings(s[1..]));
    }
  }

  lemma {:induction false} InsertCommutes(x: string, y: string, s: seq<string>)
    ensures Insert(x, Insert(y, s)) == Insert(y, Insert(x, s))
  {
    StringLeTotal(x, y);
    if s != [] {
      StringLeTotal(x, s[0]);
      StringLeTotal(y, s[0]);
      if StringLe(x, s[0]) && StringLe(s[0], y) {
        StringLeTransitive(x, s[0], y);
      }
      if StringLe(y, s[0]) && StringLe(s[0], x) {
        StringLeTransitive(y, s[0], x);
      }
      InsertCommutes(x, y, s[1..]);
    }
  }

  lemma {:induction false} SortStringsPulls(s: seq<string>, i: nat)
    requires i < |s|
    ensures SortStrings(s) == Insert(s[i], SortStrings(s[..i] + s[i + 1..]))
  {
    if i == 0 {
      assert s[..0] + s[1..] == s[1..];
    } else {
      SortStringsPulls(s[1..], i - 1);
      var rest := s[..i] + s[i + 1..];
      assert rest[1..] == s[1..][..i - 1] + s[1..][i..];
      InsertCommutes(s[0], s[i], SortStrings(rest[1..]));
    }
  }

  lemma WithoutAt(s: seq<string>, i: nat)
    requires i < |s|
    ensures multiset(s[..i] + s[i + 1..]) == multiset(s) - multiset{s[i]}
  {
    assert s == s[..i] + ([s[i]] + s[i + 1..]);
    assert multiset(s) == multiset(s[..i]) + (multiset{s[i]} + multiset(s[i + 1..]));
  }

  lemma SameWithoutOne(s: seq<string>, t: seq<string>, i: nat)
    requires s != [] && i < |t| && t[i] == s[0] && multiset(s) == multiset(t)
    ensures multiset(s[1..]) == multiset(t[..i] + t[i + 1..])
  {
    WithoutAt(s, 0);
    WithoutAt(t, i);
    assert s[..0] + s[1..] == s[1..];
  }

  /** Sorting forgets the order. */
  lemma {:induction false} SortStringsPermuted(s: seq<string>, t: seq<string>)
    requires multiset(s) == multiset(t)
    ensures SortStrings(s) == SortStrings(t)
  {
    if s == [] {
      assert |multiset(t)| == |t|;
    } else {
      assert s[0] in multiset(t);
      var i :| 0 <= i < |t| && t[i] == s[0];
      SortStringsPulls(t, i);
      SameWithoutOne(s, t, i);
      SortStringsPermuted(s[1..], t[..i] + t[i + 1..]);
    }
  }

  /** Two rules with the same fields, up to the order within one list field. */
  ghost predicate SameUpToOrder(a: map<string, Json>, b: map<string, Json>, sprint: Json -> string)
  {
    forall k :: k in a.Keys + b.Keys ==>
      || Get(a, k) == Get(b, k)
      || (Get(a, k).Arr? && Get(b, k).Arr?
          && multiset(Texts(Get(a, k).items, sprint)) == multiset(Texts(Get(b, k).items, sprint)))
  }

  lemma {:induction false} SignaturePartsIgnoreOrder(
      a: map<string, Json>, b: map<string, Json>, keys: seq<string>, sprint: Json -> string)
    requires SameUpToOrder(a, b, sprint)
    ensures SignatureParts(a, keys, sprint) == SignatureParts(b, keys, sprint)
  {
    if keys != [] {
      SignaturePartsIgnoreOrder(a, b, keys[1..], sprint);
      var x, y := Get(a, keys[0]), Get(b, keys[0]);
      if x != y {
        assert keys[0] in a.Keys + b.Keys;
        SortStringsPermuted(Texts(x.items, sprint), Texts(y.items, sprint));
      }
    }
  }

  /** Rules that differ only in the order within list fields have the same signature. */
  lemma SignatureIgnoresOrder(a: map<string, Json>, b: map<string, Json>, sprint: Json -> string)
    requires SameUpToOrder(a, b, sprint)
    ensures Signature(Obj(a), sprint) == Signature(Obj(b), sprint)
  {
    SignaturePartsIgnoreOrder(a, b, SIGNATURE_KEYS, sprint);
  }
}

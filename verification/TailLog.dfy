/** Reading the last lines of a log file backwards, chunk by chunk. */
module TailLog {

  const CHUNK := 8192

  // ----- lines -----

  function Newlines(s: string): nat
  {
    if s == [] then 0 else Newlines(s[..|s| - 1]) + if s[|s| - 1] == '\n' then 1 else 0
  }

  /** The text without the newlines at its end. */
  function Strip(s: string): (r: string)
    ensures r <= s && (r != [] ==> r[|r| - 1] != '\n')
    ensures forall i :: |r| <= i < |s| ==> s[i] == '\n'
  {
    if s != [] && s[|s| - 1] == '\n' then Strip(s[..|s| - 1]) else s
  }

  /** Lines with one more character after them. */
  function Extended(lines: seq<string>, c: char): seq<string>
    requires lines != []
  {
    if c == '\n' then lines + [[]] else lines[..|lines| - 1] + [lines[|lines| - 1] + [c]]
  }

  /** The text cut at its newlines; the empty text is one empty line. */
  function Lines(s: string): (r: seq<string>)
    ensures |r| == Newlines(s) + 1
  {
    if s == [] then [[]] else Extended(Lines(s[..|s| - 1]), s[|s| - 1])
  }

  function Last(lines: seq<string>, n: nat): seq<string>
  {
    if |lines| > n then lines[|lines| - n..] else lines
  }

  function Join(lines: seq<string>): string
  {
    if lines == [] then []
    else if |lines| == 1 then lines[0]
    else Join(lines[..|lines| - 1]) + "\n" + lines[|lines| - 1]
  }

  /** The last `n` lines of a text, not counting empty lines at its end. */
  function Tail(s: string, n: nat): string
  {
    Join(Last(Lines(Strip(s)), n))
  }

  // ----- the reader -----

  /** Reads chunks from the end until it has seen more than `n` newlines, and takes the last lines of
      what it has read. */
  method TailLogFile(file: string, n: nat) returns (r: string, off: nat)
    ensures off <= |file| && r == Tail(file[off..], n)
    ensures off > 0 ==> Newlines(file[off..]) > n
  {
    off := |file|;
    if off == 0 {
      return "", 0;
    }
    var buf: string := "";
    var nl := 0;
    while off > 0 && nl <= n
      invariant off <= |file| && buf == file[off..] && nl == Newlines(buf)
      decreases off
    {
      var rd := if CHUNK > off then off else CHUNK;
      off := off - rd;
      var b := file[off..off + rd];
      buf := b + buf;
      nl := Newlines(buf);
    }
    while |buf| > 0 && buf[|buf| - 1] == '\n'
      invariant Strip(buf) == Strip(file[off..])
    {
      buf := buf[..|buf| - 1];
    }
    var lines := Lines(buf);
    if |lines| > n {
      lines := lines[|lines| - n..];
    }
    r := Join(lines);
  }

  // ----- joining and cutting -----

  lemma {:induction false} JoinSplit(a: seq<string>, b: seq<string>)
    requires a != [] && b != []
    ensures Join(a + b) == Join(a) + "\n" + Join(b)
  {
    var init := b[..|b| - 1];
    assert (a + b)[..|a + b| - 1] == a + init;
    if |b| == 1 {
      assert a + init == a;
    } else {
      JoinSplit(a, init);
      assert Join(a) + "\n" + (Join(init) + "\n" + b[|b| - 1]) == Join(a) + "\n" + Join(init) + "\n" + b[|b| - 1];
    }
  }

  lemma JoinExtended(lines: seq<string>, c: char)
    requires lines != []
    ensures Join(Extended(lines, c)) == Join(lines) + [c]
  {
    if c == '\n' {
      JoinSplit(lines, [[]]);
      assert Join(lines) + "\n" + [] == Join(lines) + [c];
    } else {
      var front, last := lines[..|lines| - 1], lines[|lines| - 1];
      assert lines == front + [last];
      if front != [] {
        JoinSplit(front, [last]);
        JoinSplit(front, [last + [c]]);
        assert Join(front) + "\n" + (last + [c]) == Join(front) + "\n" + last + [c];
      }
    }
  }

  lemma {:induction false} JoinLines(s: string)
    ensures Join(Lines(s)) == s
  {
    if s != [] {
      var init, c := s[..|s| - 1], s[|s| - 1];
      JoinLines(init);
      JoinExtended(Lines(init), c);
      assert s == init + [c];
      assert Lines(s) == Extended(Lines(init), c);
    }
  }

  /** The last line of the one list goes on as the first line of the other. */
  function Weld(a: seq<string>, b: seq<string>): (r: seq<string>)
    requires a != [] && b != []
    ensures |r| == |a| + |b| - 1
  {
    a[..|a| - 1] + [a[|a| - 1] + b[0]] + b[1..]
  }

  lemma WeldExtended(a: seq<string>, b: seq<string>, c: char)
    requires a != [] && b != []
    ensures Extended(Weld(a, b), c) == Weld(a, Extended(b, c))
  {
    var front := a[..|a| - 1];
    if c == '\n' {
      assert Extended(b, c)[1..] == b[1..] + [[]];
    } else if |b| == 1 {
      assert a[|a| - 1] + b[0] + [c] == a[|a| - 1] + (b[0] + [c]);
    } else {
      assert b[1..] == b[1..|b| - 1] + [b[|b| - 1]];
      assert Extended(b, c)[1..] == b[1..|b| - 1] + [b[|b| - 1] + [c]];
    }
  }

  lemma {:induction false} LinesMeet(p: string, r: string)
    ensures Lines(p + r) == Weld(Lines(p), Lines(r))
  {
    if r == [] {
      assert p + r == p;
      assert Lines(p)[|Lines(p)| - 1] + [] == Lines(p)[|Lines(p)| - 1];
    } else {
      assert (p + r)[..|p + r| - 1] == p + r[..|r| - 1];
      LinesMeet(p, r[..|r| - 1]);
      WeldExtended(Lines(p), Lines(r[..|r| - 1]), r[|r| - 1]);
    }
  }

  lemma {:induction false} LastLineEmpty(p: string)
    requires p != []
    ensures Lines(p)[|Lines(p)| - 1] == [] <==> p[|p| - 1] == '\n'
    ensures p[|p| - 1] == '\n' ==> |Lines(p)| >= 2
  {
  }

  lemma {:induction false} StripWhole(p: string, part: string)
    requires Strip(part) != []
    ensures Strip(p + part) == p + Strip(part)
  {
    if part[|part| - 1] == '\n' {
      assert (p + part)[..|p + part| - 1] == p + part[..|part| - 1];
      StripWhole(p, part[..|part| - 1]);
    }
  }

  // ----- when the chunks are enough -----

  /** What has been read holds the last lines whole: more lines than asked for, or just as many
      with a newline before them. */
  predicate Enough(p: string, r: string, n: nat)
    requires p != []
  {
    Newlines(r) >= n || (Newlines(r) + 1 == n && p[|p| - 1] == '\n')
  }

  lemma WeldLong(a: seq<string>, b: seq<string>, n: nat)
    requires a != [] && |b| > n
    ensures Last(Weld(a, b), n) == Last(b, n)
  {
    assert Weld(a, b)[|a| + |b| - 1 - n..] == b[|b| - n..];
  }

  /** The last lines of the weld, where the second list is not longer than what is asked for. */
  lemma WeldShort(a: seq<string>, b: seq<string>, n: nat) returns (more: seq<string>)
    requires a != [] && b != [] && |b| <= n
    ensures Last(Weld(a, b), n) == more + ([a[|a| - 1] + b[0]] + b[1..])
    ensures more == [] <==> |b| == n || |a| == 1
  {
    var front, k := a[..|a| - 1], n - |b|;
    more := if |front| > k then front[|front| - k..] else front;
    if |front| > k {
      assert Weld(a, b)[|front| - k..] == more + ([a[|a| - 1] + b[0]] + b[1..]);
    } else {
      assert Weld(a, b) == more + ([a[|a| - 1] + b[0]] + b[1..]);
    }
  }

  lemma SeamLength(start: string, b: seq<string>)
    requires b != []
    ensures |Join([start + b[0]] + b[1..])| == |start| + |Join(b)|
  {
    if |b| == 1 {
      assert [start + b[0]] + b[1..] == [start + b[0]];
    } else {
      JoinSplit([start + b[0]], b[1..]);
      JoinSplit([b[0]], b[1..]);
      assert b == [b[0]] + b[1..];
    }
  }

  lemma WeldLength(a: seq<string>, b: seq<string>, n: nat)
    requires a != [] && b != [] && |b| <= n && (|a| == 1 ==> a[0] != [])
    ensures |Join(Last(Weld(a, b), n))| == |Join(b)| <==> |b| == n && a[|a| - 1] == []
  {
    var more := WeldShort(a, b, n);
    var seam := [a[|a| - 1] + b[0]] + b[1..];
    SeamLength(a[|a| - 1], b);
    if more == [] {
      assert more + seam == seam;
    } else {
      JoinSplit(more, seam);
    }
  }

  lemma WeldExact(a: seq<string>, b: seq<string>, n: nat)
    requires a != [] && b != [] && |b| == n && a[|a| - 1] == []
    ensures Last(Weld(a, b), n) == b
  {
    var more := WeldShort(a, b, n);
    assert [] + b[0] == b[0] && [b[0]] + b[1..] == b && more + b == b;
  }

  lemma EnoughLines(p: string, r: string, n: nat)
    requires p != [] && n > 0
    ensures Join(Last(Lines(p + r), n)) == Join(Last(Lines(r), n)) <==> Enough(p, r, n)
  {
    LinesMeet(p, r);
    LastLineEmpty(p);
    if Newlines(r) >= n {
      WeldLong(Lines(p), Lines(r), n);
    } else {
      WeldLength(Lines(p), Lines(r), n);
      if Enough(p, r, n) {
        WeldExact(Lines(p), Lines(r), n);
      }
    }
  }

  /** The lines of the part that was read are the last lines of the file exactly when they are
      whole, or when there is nothing but newlines. */
  lemma PartIsEnough(p: string, part: string, n: nat)
    requires p != [] && n > 0
    ensures Tail(part, n) == Tail(p + part, n)
        <==> (if Strip(part) == [] then Strip(p + part) == [] else Enough(p, Strip(part), n))
  {
    if Strip(part) == [] {
      NothingButNewlines(n);
      if Strip(p + part) != [] {
        LastNotEmpty(Strip(p + part), n);
      }
    } else {
      StripWhole(p, part);
      EnoughLines(p, Strip(part), n);
    }
  }

  lemma NothingButNewlines(n: nat)
    ensures Join(Last(Lines([]), n)) == []
  {
    assert Lines([]) == [[]];
  }

  lemma LastNotEmpty(s: string, n: nat)
    requires s != [] && s[|s| - 1] != '\n' && n > 0
    ensures Join(Last(Lines(s), n)) != []
  {
    LastLineEmpty(s);
    var lines := Last(Lines(s), n);
    assert lines[|lines| - 1] == Lines(s)[|Lines(s)| - 1];
  }

  lemma {:induction false} StripCounts(s: string)
    ensures Newlines(s) == Newlines(Strip(s)) + |s| - |Strip(s)|
  {
    if s != [] && s[|s| - 1] == '\n' {
      StripCounts(s[..|s| - 1]);
    }
  }

  /** A part at the end has no more newlines at its end than the whole. */
  lemma {:induction false} PartStrips(p: string, part: string)
    ensures |part| - |Strip(part)| <= |p + part| - |Strip(p + part)|
  {
    if part != [] && part[|part| - 1] == '\n' {
      assert (p + part)[..|p + part| - 1] == p + part[..|part| - 1];
      PartStrips(p, part[..|part| - 1]);
    }
  }

  /** A file that ends with at most one newline is read right, however it falls into chunks. */
  lemma OneNewlineIsRight(file: string, off: nat, n: nat)
    requires off <= |file| && (off > 0 ==> Newlines(file[off..]) > n)
    requires |file| - |Strip(file)| <= 1
    ensures Tail(file[off..], n) == Tail(file, n)
  {
    if off == 0 {
      assert file[off..] == file;
    } else if n == 0 {
      assert Last(Lines(Strip(file)), 0) == [] && Last(Lines(Strip(file[off..])), 0) == [];
    } else {
      var part := file[off..];
      assert file == file[..off] + part;
      StripCounts(part);
      PartStrips(file[..off], part);
      PartIsEnough(file[..off], part, n);
    }
  }
}

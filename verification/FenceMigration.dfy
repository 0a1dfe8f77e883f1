/** Moving the sidecars next to the configuration files into one, with a crash at any point. */
module FenceMigration {
  import opened Json
  import opened Fences
  import opened FenceFiles
  import opened Writes

  type Sidecars = map<string, States>

  /** All sidecars that exist among the paths, merged in order; nothing when two of them conflict. */
  ghost function Total(files: Sidecars, paths: seq<string>): Option<States>
  {
    if paths == [] then Some(map[])
    else
      var before, last := Total(files, paths[..|paths| - 1]), paths[|paths| - 1];
      if last !in files || before.None? then before
      else if Mergeable(before.value, files[last]) then Some(MergedStates(before.value, files[last])) else None
  }

  function Present(files: Sidecars, paths: seq<string>): seq<string>
  {
    if paths == [] then []
    else
      Present(files, paths[..|paths| - 1]) + if paths[|paths| - 1] in files then [paths[|paths| - 1]] else []
  }

  datatype Point = Unloaded | Deleting(states: States, todo: seq<string>) | Ready(states: States)

  datatype Attempt = Attempt(files: Sidecars, at: Point)

  /** `Merging` reads every sidecar and writes the merged one; each old one is then removed by itself. */
  datatype Event = Merging(w: Write) | Removing(removed: bool, ok: bool) | Crashing

  ghost function Next(a: Attempt, primary: string, legacy: seq<string>, e: Event): Attempt
  {
    match e
    case Crashing => Attempt(a.files, Unloaded)
    case Merging(w) =>
      var total := Total(a.files, [primary] + legacy);
      if !a.at.Unloaded? || total.None? then a
      else if Present(a.files, legacy) == [] then Attempt(a.files, Ready(total.value))
      else
        Attempt(if Applied(w) then a.files[primary := OnFile(total.value)] else a.files,
                if w.Done? then Deleting(total.value, Present(a.files, legacy)) else Unloaded)
    case Removing(removed, ok) =>
      if !a.at.Deleting? then a
      else if a.at.todo == [] then Attempt(a.files, Ready(a.at.states))
      else
        Attempt(if removed || ok then a.files - {a.at.todo[0]} else a.files,
                if ok then Deleting(a.at.states, a.at.todo[1..]) else Unloaded)
  }

  ghost function Run(a: Attempt, primary: string, legacy: seq<string>, events: seq<Event>): Attempt
  {
    if events == [] then a
    else Next(Run(a, primary, legacy, events[..|events| - 1]), primary, legacy, events[|events| - 1])
  }

  /** A migration that fails anywhere begins again; each file is gone or there. */
  lemma FailureUnloads(a: Attempt, primary: string, legacy: seq<string>, removed: bool, w: Write)
    ensures a.at.Deleting? && a.at.todo != [] ==> Next(a, primary, legacy, Removing(removed, false)).at == Unloaded
    ensures a.at.Deleting? && a.at.todo != [] && !removed ==> Next(a, primary, legacy, Removing(removed, false)).files == a.files
    ensures a.at.Unloaded? && w != Done && Present(a.files, legacy) != [] ==> Next(a, primary, legacy, Merging(w)).at == Unloaded
    ensures Next(a, primary, legacy, Crashing) == Attempt(a.files, Unloaded)
  {
  }

  // ----- merging again what has been merged -----

  ghost predicate NoBlanks(states: States)
  {
    forall tag :: tag in states ==> !Blank(states[tag])
  }

  /** Everything that `small` says is said by `big` already. */
  ghost predicate Within(small: States, big: States)
  {
    forall tag :: tag in small ==> tag in big && Compatible(small[tag], big[tag]) && small[tag].canceled <= big[tag].canceled
  }

  lemma WithinAbsorbed(small: States, big: States)
    requires Within(small, big)
    ensures Mergeable(big, small) && MergedStates(big, small) == big
  {
    forall tag | tag in small ensures big[tag].canceled + small[tag].canceled == big[tag].canceled {
    }
  }

  lemma {:induction false} TotalContains(files: Sidecars, paths: seq<string>)
    requires Total(files, paths).Some?
    ensures forall path :: path in paths && path in files ==> Within(files[path], Total(files, paths).value)
    ensures (forall path :: path in paths && path in files ==> NoBlanks(files[path])) ==> NoBlanks(Total(files, paths).value)
  {
    if paths != [] {
      TotalContains(files, paths[..|paths| - 1]);
    }
  }

  /** Once one file holds everything, the others add nothing, however many of them are left. */
  lemma {:induction false} TotalAbsorbs(files: Sidecars, primary: string, legacy: seq<string>, all: States)
    requires primary in files && files[primary] == all
    requires forall path :: path in legacy && path in files ==> Within(files[path], all)
    ensures Total(files, [primary] + legacy) == Some(all)
  {
    var paths := [primary] + legacy;
    if legacy == [] {
      assert paths[..0] == [] && paths == [primary];
      assert MergedStates(map[], all) == all;
    } else {
      assert paths[..|paths| - 1] == [primary] + legacy[..|legacy| - 1];
      TotalAbsorbs(files, primary, legacy[..|legacy| - 1], all);
      if legacy[|legacy| - 1] in files {
        WithinAbsorbed(files[legacy[|legacy| - 1]], all);
      }
    }
  }

  // ----- the migration -----

  ghost predicate Migrating(a: Attempt, primary: string, legacy: seq<string>, all: States)
  {
    && (forall path :: path in a.files ==> NoBlanks(a.files[path]))
    && Total(a.files, [primary] + legacy) == Some(all)
    && (!a.at.Unloaded? ==> a.at.states == all)
    && (a.at.Deleting? ==> primary in a.files && a.files[primary] == all && forall path :: path in a.at.todo ==> path in legacy)
  }

  lemma {:induction false} PresentAmong(files: Sidecars, paths: seq<string>)
    ensures forall path :: path in Present(files, paths) <==> path in paths && path in files
  {
    if paths != [] {
      PresentAmong(files, paths[..|paths| - 1]);
    }
  }

  lemma MigrationStep(a: Attempt, primary: string, legacy: seq<string>, e: Event, all: States)
    requires primary !in legacy && Migrating(a, primary, legacy, all)
    ensures Migrating(Next(a, primary, legacy, e), primary, legacy, all)
  {
    TotalContains(a.files, [primary] + legacy);
    PresentAmong(a.files, legacy);
    var b := Next(a, primary, legacy, e);
    if e.Merging? && b.files != a.files {
      assert NoBlanks(all) by { assert forall path :: path in [primary] + legacy && path in a.files ==> NoBlanks(a.files[path]); }
      assert OnFile(all) == all;
      assert forall path :: path in legacy ==> path in [primary] + legacy;
      TotalAbsorbs(b.files, primary, legacy, all);
    } else if e.Removing? && b.files != a.files {
      assert forall path :: path in legacy ==> path in [primary] + legacy;
      TotalAbsorbs(b.files, primary, legacy, all);
    }
  }

  /** However often the migration is cut short and tried again, the sidecars say together what they
      said at the start, and that is what is loaded in the end. */
  lemma {:induction false} MigrationKeepsStates(files: Sidecars, primary: string, legacy: seq<string>, events: seq<Event>)
    requires primary !in legacy && forall path :: path in files ==> NoBlanks(files[path])
    ensures var a := Run(Attempt(files, Unloaded), primary, legacy, events);
            && Total(a.files, [primary] + legacy) == Total(files, [primary] + legacy)
            && (a.at.Ready? ==> Total(files, [primary] + legacy) == Some(a.at.states))
            && (Total(files, [primary] + legacy).None? ==> a == Attempt(files, Unloaded))
  {
    var total := Total(files, [primary] + legacy);
    if total.Some? {
      RunMigrates(Attempt(files, Unloaded), primary, legacy, events, total.value);
    } else if events != [] {
      MigrationKeepsStates(files, primary, legacy, events[..|events| - 1]);
    }
  }

  lemma {:induction false} RunMigrates(a: Attempt, primary: string, legacy: seq<string>, events: seq<Event>, all: States)
    requires primary !in legacy && Migrating(a, primary, legacy, all)
    ensures Migrating(Run(a, primary, legacy, events), primary, legacy, all)
  {
    if events != [] {
      RunMigrates(a, primary, legacy, events[..|events| - 1], all);
      MigrationStep(Run(a, primary, legacy, events[..|events| - 1]), primary, legacy, events[|events| - 1], all);
    }
  }

  // ----- when the sidecars can be merged, and what a migration reaches -----

  predicate ThereIn(files: Sidecars, paths: seq<string>, path: string)
  {
    path in paths && path in files
  }

  lemma ThereMore(files: Sidecars, paths: seq<string>)
    requires paths != []
    ensures forall path :: ThereIn(files, paths, path) <==>
              ThereIn(files, paths[..|paths| - 1], path) || (path == paths[|paths| - 1] && path in files)
  {
    assert paths == paths[..|paths| - 1] + [paths[|paths| - 1]];
  }

  /** The merge has the tags of all sidecars, and under each the cancellations of all. */
  ghost predicate SumOf(total: States, files: Sidecars, paths: seq<string>)
  {
    && (forall tag :: tag in total <==> exists path :: ThereIn(files, paths, path) && tag in files[path])
    && (forall path, tag :: ThereIn(files, paths, path) && tag in files[path] ==>
          total[tag].owner == files[path][tag].owner && total[tag].pending == files[path][tag].pending)
    && (forall tag, id :: tag in total ==>
          (id in total[tag].canceled <==>
             exists path :: ThereIn(files, paths, path) && tag in files[path] && id in files[path][tag].canceled))
  }

  lemma SumNext(total: States, files: Sidecars, paths: seq<string>)
    requires paths != [] && SumOf(total, files, paths[..|paths| - 1])
    ensures paths[|paths| - 1] !in files ==> SumOf(total, files, paths)
    ensures paths[|paths| - 1] in files && Mergeable(total, files[paths[|paths| - 1]]) ==>
              SumOf(MergedStates(total, files[paths[|paths| - 1]]), files, paths)
  {
    ThereMore(files, paths);
  }

  /** Sidecars can be merged exactly when any two of them can. */
  lemma {:induction false} TotalMeans(files: Sidecars, paths: seq<string>)
    ensures Total(files, paths).Some? <==>
              forall p, q :: ThereIn(files, paths, p) && ThereIn(files, paths, q) ==> Mergeable(files[p], files[q])
    ensures Total(files, paths).Some? ==> SumOf(Total(files, paths).value, files, paths)
  {
    if paths != [] {
      var init, last := paths[..|paths| - 1], paths[|paths| - 1];
      TotalMeans(files, init);
      ThereMore(files, paths);
      if Total(files, init).Some? {
        SumNext(Total(files, init).value, files, paths);
        if last in files {
          MergeableWithAll(Total(files, init).value, files, init, files[last]);
        }
      }
    }
  }

  lemma MergeableWithAll(total: States, files: Sidecars, paths: seq<string>, other: States)
    requires SumOf(total, files, paths)
    ensures Mergeable(total, other) <==> forall p :: ThereIn(files, paths, p) ==> Mergeable(files[p], other)
    ensures Mergeable(total, other) <==> forall p :: ThereIn(files, paths, p) ==> Mergeable(other, files[p])
  {
    if forall p :: ThereIn(files, paths, p) ==> Mergeable(files[p], other) {
      forall tag | tag in total && tag in other ensures Compatible(total[tag], other[tag]) {
        var p :| ThereIn(files, paths, p) && tag in files[p];
        assert Compatible(files[p][tag], other[tag]);
      }
    }
    if Mergeable(total, other) {
      forall p | ThereIn(files, paths, p) ensures Mergeable(files[p], other) && Mergeable(other, files[p]) {
        forall tag | tag in files[p] && tag in other ensures Compatible(files[p][tag], other[tag]) {
          assert tag in total && Compatible(total[tag], other[tag]);
        }
      }
    }
    if forall p :: ThereIn(files, paths, p) ==> Mergeable(other, files[p]) {
      forall p | ThereIn(files, paths, p) ensures Mergeable(files[p], other) {
      }
    }
  }

  lemma {:induction false} RunFrom(a: Attempt, primary: string, legacy: seq<string>, e: Event, events: seq<Event>)
    ensures Run(a, primary, legacy, [e] + events) == Run(Next(a, primary, legacy, e), primary, legacy, events)
  {
    var all := [e] + events;
    if events == [] {
      assert all[..|all| - 1] == [];
    } else {
      assert all[..|all| - 1] == [e] + events[..|events| - 1];
      RunFrom(a, primary, legacy, e, events[..|events| - 1]);
    }
  }

  lemma {:induction false} RemovesAll(a: Attempt, primary: string, legacy: seq<string>) returns (events: seq<Event>)
    requires a.at.Deleting?
    ensures var b := Run(a, primary, legacy, events);
            b.at == Ready(a.at.states) && b.files == a.files - (set path | path in a.at.todo)
    decreases if a.at.Deleting? then |a.at.todo| else 0
  {
    var e := Removing(true, true);
    var next := Next(a, primary, legacy, e);
    if a.at.todo == [] {
      RunFrom(a, primary, legacy, e, []);
      return [e];
    }
    var rest := RemovesAll(next, primary, legacy);
    RunFrom(a, primary, legacy, e, rest);
    events := [e] + rest;
    assert a.at.todo == [a.at.todo[0]] + a.at.todo[1..];
  }

  /** A migration in which nothing fails leaves one sidecar with the merge of all. */
  lemma MigrationCompletes(files: Sidecars, primary: string, legacy: seq<string>) returns (events: seq<Event>)
    requires primary !in legacy && forall path :: path in files ==> NoBlanks(files[path])
    requires Total(files, [primary] + legacy).Some?
    ensures var a := Run(Attempt(files, Unloaded), primary, legacy, events);
            var total := Total(files, [primary] + legacy).value;
            && a.at == Ready(total)
            && (forall path :: path in legacy ==> path !in a.files)
            && (if exists path :: path in legacy && path in files then primary in a.files && a.files[primary] == total else a.files == files)
  {
    var total := Total(files, [primary] + legacy).value;
    var start := Attempt(files, Unloaded);
    var merged := Next(start, primary, legacy, Merging(Done));
    PresentAmong(files, legacy);
    TotalContains(files, [primary] + legacy);
    if Present(files, legacy) == [] {
      RunFrom(start, primary, legacy, Merging(Done), []);
      events := [Merging(Done)];
      assert forall path :: path in legacy ==> path !in Present(files, legacy);
    } else {
      assert Present(files, legacy)[0] in Present(files, legacy);
      assert OnFile(total) == total by {
        assert NoBlanks(total);
      }
      var rest := RemovesAll(merged, primary, legacy);
      RunFrom(start, primary, legacy, Merging(Done), rest);
      events := [Merging(Done)] + rest;
    }
  }
}

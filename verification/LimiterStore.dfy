/** The durable limiter state and the limiter of a running embedded Xray, ordered by one lock. */
module LimiterStores {
  import opened Json
  import opened Writes
  import opened Snapshots

  // ----- what each operation makes of the state -----

  /** What the snapshot file says: nothing readable, or one snapshot for each of its tags. */
  datatype File = Missing | Unreadable | Holding(contents: map<string, Snapshot>)

  datatype State = State(embedded: bool, file: File, marker: bool, running: bool, live: map<string, Live>)

  function Contents(f: File): map<string, Snapshot>
  {
    if f.Holding? then f.contents else map[]
  }

  predicate SomePeers(contents: map<string, Snapshot>)
  {
    exists tag :: tag in contents && contents[tag].peers != []
  }

  /** `reachable`: the running Xray has a limiter. `w`, `m`: the write of the file and the removal of
      the marker. `undo`, `remark`: whether they could be put back. */
  datatype Op =
    | Delivering(s: Snapshot, reachable: bool, w: Write, undo: bool)
    | Deleting(tag: string, force: bool, reachable: bool, w: Write, m: Write, undo: bool, remark: bool)
    | Marking(w: Write)
    | Starting(fails: bool)
    | Stopping

  predicate Reached(st: State, reachable: bool)
  {
    st.embedded ==> st.running && reachable
  }

  ghost predicate Delivers(st: State, s: Snapshot, reachable: bool, w: Write, p: Parser)
  {
    ValidSnapshot(s, p) && !st.file.Unreadable? && w.Done? && Reached(st, reachable)
  }

  ghost function Delivered(st: State, s: Snapshot, reachable: bool, w: Write, undo: bool, p: Parser): State
  {
    var written := st.(file := Holding(Contents(st.file)[s.tag := s]));
    if !ValidSnapshot(s, p) || st.file.Unreadable? || w.FailedBefore? then st
    else if w.FailedAfter? then written
    else if !Reached(st, reachable) then (if undo then st else written)
    else if st.embedded then written.(live := Synced(st.live, s, p))
    else written
  }

  /** What a deletion needs before it touches anything. */
  predicate MayDelete(st: State, tag: string, reachable: bool)
  {
    tag != "" && Reached(st, reachable) && !st.file.Unreadable? && (st.marker ==> st.file.Holding?)
  }

  /** Whether the tag has to do with WireGuard. */
  predicate Concerned(st: State, tag: string, force: bool)
  {
    || force || (tag in Contents(st.file) && Contents(st.file)[tag].peers != [])
    || (st.running && tag in st.live && st.live[tag].required)
  }

  predicate Unmarks(st: State, tag: string)
  {
    st.marker && !SomePeers(Contents(st.file) - {tag})
  }

  // First the file is written, if it has the tag, then the marker is removed, if it goes, and then
  // the limiter of the tag. What fails is undone, as far as that works.

  predicate Carried(found: bool, unmarks: bool, w: Write, m: Write)
  {
    (found ==> w.Done?) && (unmarks ==> m.Done?)
  }

  function Rewritten(st: State, rewritten: File, found: bool, w: Write, undo: bool): State
  {
    if found && Applied(w) && (w.Done? || !undo) then st.(file := rewritten) else st
  }

  function Finished(st: State, before: File, tag: string, unmarks: bool, m: Write, undo: bool, remark: bool): State
  {
    if unmarks && !m.Done? then st.(file := if undo then before else st.file, marker := !Applied(m) || remark)
    else st.(marker := st.marker && !unmarks, live := if st.running then st.live - {tag} else st.live)
  }

  function CarriedOut(st: State, tag: string, rewritten: File, found: bool, unmarks: bool, w: Write, m: Write, undo: bool, remark: bool): State
  {
    var struck := Rewritten(st, rewritten, found, w, undo);
    if found ==> w.Done? then Finished(struck, st.file, tag, unmarks, m, undo, remark) else struck
  }

  predicate Deletes(st: State, tag: string, force: bool, reachable: bool, w: Write, m: Write)
  {
    && MayDelete(st, tag, reachable)
    && (Concerned(st, tag, force) ==> Carried(tag in Contents(st.file), Unmarks(st, tag), w, m))
  }

  function Deleted(st: State, tag: string, force: bool, reachable: bool, w: Write, m: Write, undo: bool, remark: bool): State
  {
    if !MayDelete(st, tag, reachable) || !Concerned(st, tag, force) then st
    else
      CarriedOut(st, tag, Holding(Contents(st.file) - {tag}), tag in Contents(st.file), Unmarks(st, tag), w, m, undo, remark)
  }

  predicate Starts(st: State, fails: bool)
  {
    st.embedded && !st.file.Unreadable? && (st.marker ==> st.file.Holding?) && !fails
  }

  function Fresh(contents: map<string, Snapshot>, p: Parser): map<string, Live>
  {
    map tag | tag in contents :: LiveOf(contents[tag], false, p)
  }

  function StartedFrom(st: State, fails: bool, p: Parser): State
  {
    if Starts(st, fails) then st.(running := true, live := Fresh(Contents(st.file), p)) else st
  }

  ghost function After(st: State, op: Op, p: Parser): State
  {
    match op
    case Delivering(s, reachable, w, undo) => Delivered(st, s, reachable, w, undo, p)
    case Deleting(tag, force, reachable, w, m, undo, remark) => Deleted(st, tag, force, reachable, w, m, undo, remark)
    case Marking(w) => if st.file.Holding? && Applied(w) then st.(marker := true) else st
    case Starting(fails) => StartedFrom(st, fails, p)
    case Stopping => st.(running := false, live := map[])
  }

  ghost predicate Succeeds(st: State, op: Op, p: Parser)
  {
    match op
    case Delivering(s, reachable, w, _) => Delivers(st, s, reachable, w, p)
    case Deleting(tag, force, reachable, w, m, _, _) => Deletes(st, tag, force, reachable, w, m)
    case Marking(w) => st.file.Holding? && w.Done?
    case Starting(fails) => Starts(st, fails)
    case Stopping => true
  }

  ghost function Run(st: State, ops: seq<Op>, p: Parser): State
  {
    if ops == [] then st else After(Run(st, ops[..|ops| - 1], p), ops[|ops| - 1], p)
  }

  /** The marker is set next to a readable file only; a stop empties the limiter. */
  lemma MarkingMeans(st: State, w: Write, p: Parser)
    ensures After(st, Marking(w), p) == st.(marker := st.marker || (st.file.Holding? && w != FailedBefore))
    ensures Succeeds(st, Marking(w), p) <==> st.file.Holding? && w == Done
    ensures After(st, Stopping, p) == st.(running := false, live := map[])
  {
  }

  lemma RunTakesAll(st: State, ops: seq<Op>, op: Op, p: Parser)
    ensures Run(st, [], p) == st && Run(st, ops + [op], p) == After(Run(st, ops, p), op, p)
  {
    assert (ops + [op])[..|ops|] == ops;
  }

  // ----- deletions -----

  /** A deletion that succeeds on a tag of WireGuard leaves the tag nowhere, and the marker exactly
      where peers are left. */
  lemma DeletionForgets(st: State, tag: string, force: bool, reachable: bool, w: Write, m: Write, undo: bool, remark: bool)
    requires Concerned(st, tag, force) && Deletes(st, tag, force, reachable, w, m)
    ensures var after := Deleted(st, tag, force, reachable, w, m, undo, remark);
            && after.embedded == st.embedded && after.running == st.running && !after.file.Unreadable?
            && Contents(after.file) == Contents(st.file) - {tag} && after.live == (if st.running then st.live - {tag} else st.live)
            && (after.marker <==> st.marker && SomePeers(Contents(st.file) - {tag}))
  {
    if tag !in Contents(st.file) {
      assert Contents(st.file) - {tag} == Contents(st.file);
    }
  }

  /** One that fails leaves everything as it was, if what has been done can be undone. */
  lemma DeletionUndone(st: State, tag: string, force: bool, reachable: bool, w: Write, m: Write, undo: bool, remark: bool)
    requires !Deletes(st, tag, force, reachable, w, m)
    ensures var after := Deleted(st, tag, force, reachable, w, m, undo, remark);
            after.live == st.live && (undo && remark ==> after == st)
  {
  }

  /** A delivery that fails leaves the limiter alone, and the file too unless it had been written and
      was not put back. */
  lemma DeliveryUndone(st: State, s: Snapshot, reachable: bool, w: Write, undo: bool, p: Parser)
    requires !Delivers(st, s, reachable, w, p)
    ensures var before := if st.file.Holding? then st.file.contents else map[];
            var after := Delivered(st, s, reachable, w, undo, p);
            && after == st.(file := after.file)
            && after.file == if ValidSnapshot(s, p) && st.file != Unreadable && (w == FailedAfter || (w == Done && !undo))
                             then Holding(before[s.tag := s]) else st.file
  {
  }

  /** When a deletion succeeds. A tag has to do with WireGuard when the caller says so, when its
      snapshot has peers, or when the limiter requires an identity of it. */
  lemma DeletesMeans(st: State, tag: string, force: bool, reachable: bool, w: Write, m: Write)
    ensures var found := st.file.Holding? && tag in st.file.contents;
            var concerned := force || (found && st.file.contents[tag].peers != []) || (st.running && tag in st.live && st.live[tag].required);
            var unmarks := st.marker && !(st.file.Holding? && exists t :: t in st.file.contents && t != tag && st.file.contents[t].peers != []);
            Deletes(st, tag, force, reachable, w, m) <==>
              && tag != "" && (st.embedded ==> st.running && reachable)
              && st.file != Unreadable && (st.marker ==> st.file != Missing)
              && (concerned && found ==> w == Done) && (concerned && unmarks ==> m == Done)
  {
    OthersWithPeers(Contents(st.file), tag);
  }

  lemma OthersWithPeers(contents: map<string, Snapshot>, tag: string)
    ensures SomePeers(contents - {tag}) <==> exists t :: t in contents && t != tag && contents[t].peers != []
  {
    if t :| t in contents && t != tag && contents[t].peers != [] {
      assert t in contents - {tag};
    }
  }

  // ----- file and limiter -----

  predicate About(op: Op, tag: string)
  {
    (op.Delivering? && op.s.tag == tag) || (op.Deleting? && op.tag == tag)
  }

  /** The running limiter says about a tag what the file says, up to the requirement that sticks. */
  predicate InStep(st: State, tag: string, p: Parser)
  {
    st.embedded && st.running && !st.file.Unreadable? ==>
      && (tag in st.live <==> tag in Contents(st.file))
      && (tag in st.live ==> st.live[tag] == LiveOf(Contents(st.file)[tag], st.live[tag].required, p))
  }

  /** In other words: the limiter has the tags of the file, and says of each what its snapshot says. */
  lemma InStepMeans(st: State, tag: string, p: Parser)
    requires st.embedded && st.running && st.file != Unreadable
    ensures InStep(st, tag, p) <==>
              if st.file.Holding? && tag in st.file.contents then tag in st.live && Says(st.live[tag], st.file.contents[tag], p)
              else tag !in st.live
  {
    if tag in Contents(st.file) && tag in st.live {
      SaysIsLive(st.live[tag], Contents(st.file)[tag], p);
    }
  }

  /** The operation fails and leaves the file written: the write reported an error after its rename, or
      something failed behind it and the file could not be put back. */
  ghost predicate LeavesFile(st: State, op: Op, p: Parser)
  {
    match op
    case Delivering(s, reachable, w, undo) =>
      ValidSnapshot(s, p) && !st.file.Unreadable? && (w.FailedAfter? || (w.Done? && !Reached(st, reachable) && !undo))
    case Deleting(tag, force, reachable, w, m, undo, _) =>
      && MayDelete(st, tag, reachable) && Concerned(st, tag, force) && tag in Contents(st.file) && !undo
      && (w.FailedAfter? || (w.Done? && Unmarks(st, tag) && !m.Done?))
    case _ => false
  }

  /** It does so about the tag, while a limiter is running. */
  ghost predicate Strays(st: State, op: Op, tag: string, p: Parser)
  {
    About(op, tag) && LeavesFile(st, op, p) && st.embedded && st.running
  }

  /** The limiter happens to say already what the file is left with. */
  predicate StillMatches(st: State, op: Op, tag: string, p: Parser)
  {
    match op
    case Delivering(s, _, _, _) => tag in st.live && st.live[tag] == LiveOf(s, st.live[tag].required, p)
    case _ => tag !in st.live
  }

  /** A start, a stop, and a delivery or deletion of the tag that succeeds bring limiter and file in
      step again. */
  ghost predicate Renews(st: State, op: Op, tag: string, p: Parser)
  {
    Succeeds(st, op, p) &&
    match op
    case Delivering(s, _, _, _) => s.tag == tag
    case Deleting(own, force, _, _, _, _, _) => own == tag && Concerned(st, own, force)
    case Marking(_) => false
    case _ => true
  }

  lemma DeliveryInStep(st: State, op: Op, tag: string, p: Parser)
    requires op.Delivering?
    ensures InStep(Delivered(st, op.s, op.reachable, op.w, op.undo, p), tag, p)
        <==> Renews(st, op, tag, p) || (if Strays(st, op, tag, p) then StillMatches(st, op, tag, p) else InStep(st, tag, p))
  {
  }

  lemma DeletionInStep(st: State, op: Op, tag: string, p: Parser)
    requires op.Deleting?
    ensures InStep(Deleted(st, op.tag, op.force, op.reachable, op.w, op.m, op.undo, op.remark), tag, p)
        <==> Renews(st, op, tag, p) || (if Strays(st, op, tag, p) then StillMatches(st, op, tag, p) else InStep(st, tag, p))
  {
    if Concerned(st, op.tag, op.force) && Deletes(st, op.tag, op.force, op.reachable, op.w, op.m) {
      DeletionForgets(st, op.tag, op.force, op.reachable, op.w, op.m, op.undo, op.remark);
    } else {
      DeletionLeaves(st, op, p);
    }
  }

  /** A deletion that fails leaves the limiter, and the file too unless that could not be put back. */
  lemma DeletionLeaves(st: State, op: Op, p: Parser)
    requires op.Deleting?
    requires !Deletes(st, op.tag, op.force, op.reachable, op.w, op.m) || !Concerned(st, op.tag, op.force)
    ensures var after := Deleted(st, op.tag, op.force, op.reachable, op.w, op.m, op.undo, op.remark);
            && after == st.(file := after.file, marker := after.marker)
            && after.file == if LeavesFile(st, op, p) then Holding(Contents(st.file) - {op.tag}) else st.file
  {
  }

  /** It leaves the marker as well, unless its removal reported an error afterwards and it could not be
      set again. */
  lemma MarkerLeft(st: State, op: Op, p: Parser)
    requires op.Deleting? && !Deletes(st, op.tag, op.force, op.reachable, op.w, op.m)
    ensures Deleted(st, op.tag, op.force, op.reachable, op.w, op.m, op.undo, op.remark).marker <==>
              st.marker && !(MayDelete(st, op.tag, op.reachable) && (op.tag in Contents(st.file) ==> op.w == Done)
                             && Unmarks(st, op.tag) && op.m == FailedAfter && !op.remark)
  {
  }

  lemma StepInStep(st: State, op: Op, tag: string, p: Parser)
    ensures InStep(After(st, op, p), tag, p)
        <==> Renews(st, op, tag, p) || (if Strays(st, op, tag, p) then StillMatches(st, op, tag, p) else InStep(st, tag, p))
  {
    match op
    case Delivering(_, _, _, _) => DeliveryInStep(st, op, tag, p);
    case Deleting(_, _, _, _, _, _, _) => DeletionInStep(st, op, tag, p);
    case _ =>
  }

  /** What decides, going back through the run: the last operation that renewed the tag or strayed. */
  ghost predicate Steady(st: State, ops: seq<Op>, tag: string, p: Parser)
  {
    if ops == [] then InStep(st, tag, p)
    else
      var before, last := Run(st, ops[..|ops| - 1], p), ops[|ops| - 1];
      || Renews(before, last, tag, p)
      || (if Strays(before, last, tag, p) then StillMatches(before, last, tag, p) else Steady(st, ops[..|ops| - 1], tag, p))
  }

  /** Over every run of deliveries, deletions, starts and stops the running limiter says about a tag
      what the file says exactly if the last operation that counts for the tag renewed it, or failed
      after writing just what the limiter says. */
  lemma {:induction false} LimiterFollowsFile(st: State, ops: seq<Op>, tag: string, p: Parser)
    ensures InStep(Run(st, ops, p), tag, p) <==> Steady(st, ops, tag, p)
  {
    if ops != [] {
      LimiterFollowsFile(st, ops[..|ops| - 1], tag, p);
      StepInStep(Run(st, ops[..|ops| - 1], p), ops[|ops| - 1], tag, p);
    }
  }

  /** An operation that strays leaves file and limiter apart exactly when the limiter says something
      else already; a deletion of a tag that was in step always does. */
  lemma StrayedApart(st: State, op: Op, tag: string, p: Parser)
    requires Strays(st, op, tag, p)
    ensures InStep(After(st, op, p), tag, p) <==> StillMatches(st, op, tag, p)
    ensures op.Deleting? && InStep(st, tag, p) ==> !InStep(After(st, op, p), tag, p)
  {
    StepInStep(st, op, tag, p);
    StrayingFails(st, op, p);
  }

  lemma StrayingFails(st: State, op: Op, p: Parser)
    requires LeavesFile(st, op, p) && st.embedded && st.running
    ensures !Succeeds(st, op, p)
  {
  }

  // ----- the identity requirement -----

  /** What ends a requirement: the tag is deleted, or Xray stops or starts afresh. */
  ghost predicate Releases(st: State, op: Op, tag: string, p: Parser)
  {
    Succeeds(st, op, p) && (op.Stopping? || op.Starting? || (op.Deleting? && op.tag == tag))
  }

  ghost predicate Unreleased(st: State, ops: seq<Op>, tag: string, p: Parser)
  {
    ops == [] || (Unreleased(st, ops[..|ops| - 1], tag, p) && !Releases(Run(st, ops[..|ops| - 1], p), ops[|ops| - 1], tag, p))
  }

  predicate Requires(st: State, tag: string)
  {
    st.running && tag in st.live && st.live[tag].required
  }

  lemma StepRequires(st: State, op: Op, tag: string, p: Parser)
    requires Requires(st, tag) && !Releases(st, op, tag, p)
    ensures Requires(After(st, op, p), tag)
  {
  }

  /** Once an identity is required of a tag, every delivery keeps it required, whatever it delivers,
      and so does everything else up to a deletion of the tag, a stop or a start. */
  lemma {:induction false} RequirementSticks(st: State, ops: seq<Op>, tag: string, p: Parser)
    requires Requires(st, tag) && Unreleased(st, ops, tag, p)
    ensures Requires(Run(st, ops, p), tag)
  {
    if ops != [] {
      RequirementSticks(st, ops[..|ops| - 1], tag, p);
      StepRequires(Run(st, ops[..|ops| - 1], p), ops[|ops| - 1], tag, p);
    }
  }

  // ----- the marker -----

  /** The marker never stands without the file it demands. */
  predicate Guarded(st: State)
  {
    st.marker ==> !st.file.Missing?
  }

  lemma MarkerStep(st: State, op: Op, p: Parser)
    requires Guarded(st)
    ensures Guarded(After(st, op, p))
  {
    match op
    case Deleting(tag, force, reachable, w, m, undo, remark) =>
      assert Deleted(st, tag, force, reachable, w, m, undo, remark).file == st.file
          || Deleted(st, tag, force, reachable, w, m, undo, remark).file.Holding?;
    case _ =>
  }

  lemma {:induction false} MarkerHasFile(st: State, ops: seq<Op>, p: Parser)
    requires Guarded(st)
    ensures Guarded(Run(st, ops, p))
  {
    if ops != [] {
      MarkerHasFile(st, ops[..|ops| - 1], p);
      MarkerStep(Run(st, ops[..|ops| - 1], p), ops[|ops| - 1], p);
    }
  }

  // ----- the operations, step by step -----

  function ContentsOf(list: seq<Snapshot>): map<string, Snapshot>
  {
    if list == [] then map[]
    else var last := list[|list| - 1]; ContentsOf(list[..|list| - 1])[last.tag := last]
  }

  lemma {:induction false} ContentsAre(list: seq<Snapshot>, tag: string)
    ensures tag in ContentsOf(list) ==> ContentsOf(list)[tag] in list && ContentsOf(list)[tag].tag == tag
    ensures DistinctTags(list) ==> forall s :: s in list && s.tag == tag ==> tag in ContentsOf(list) && ContentsOf(list)[tag] == s
  {
    if list != [] {
      var init, last := list[..|list| - 1], list[|list| - 1];
      ContentsAre(init, tag);
      assert list == init + [last];
      if DistinctTags(list) {
        forall s | s in list && s.tag == tag ensures tag in ContentsOf(list) && ContentsOf(list)[tag] == s {
          var i :| 0 <= i < |list| && list[i] == s;
          assert i < |init| ==> init[i] == s && s.tag != last.tag;
        }
      }
    }
  }

  lemma ReplacedContents(list: seq<Snapshot>, s: Snapshot, after: seq<Snapshot>)
    requires DistinctTags(list) && DistinctTags(after) && ReplacedBy(list, s, after)
    ensures ContentsOf(after) == ContentsOf(list)[s.tag := s]
  {
    forall tag: string
      ensures tag in ContentsOf(after) <==> tag in ContentsOf(list)[s.tag := s]
      ensures tag in ContentsOf(after) ==> ContentsOf(after)[tag] == ContentsOf(list)[s.tag := s][tag]
    {
      ContentsAre(list, tag);
      ContentsAre(after, tag);
      assert s in after;
    }
  }

  lemma WithoutContents(list: seq<Snapshot>, tag: string, after: seq<Snapshot>)
    requires DistinctTags(list) && DistinctTags(after) && Without(list, tag, after)
    ensures ContentsOf(after) == ContentsOf(list) - {tag}
    ensures SomePeers(ContentsOf(after)) <==> exists s :: s in after && s.peers != []
    ensures tag in ContentsOf(list) <==> exists s :: s in list && s.tag == tag
  {
    forall t: string
      ensures t in ContentsOf(after) <==> t in ContentsOf(list) - {tag}
      ensures t in ContentsOf(after) ==> ContentsOf(after)[t] == (ContentsOf(list) - {tag})[t]
    {
      ContentsAre(list, t);
      ContentsAre(after, t);
    }
    if s :| s in after && s.peers != [] {
      ContentsAre(after, s.tag);
    }
    ContentsAre(list, tag);
    forall t | t in ContentsOf(after) ensures ContentsOf(after)[t] in after {
      ContentsAre(after, t);
    }
  }

  lemma RestoredIsFresh(list: seq<Snapshot>, p: Parser)
    requires DistinctTags(list)
    ensures Restored(list, p) == Fresh(ContentsOf(list), p)
  {
    RestoredReflects(list, p);
    forall tag: string
      ensures tag in Restored(list, p) <==> tag in ContentsOf(list)
      ensures tag in ContentsOf(list) ==> Restored(list, p)[tag] == LiveOf(ContentsOf(list)[tag], false, p)
    {
      ContentsAre(list, tag);
      if tag in ContentsOf(list) {
        FreshRequirements(list, p, ContentsOf(list)[tag]);
      }
    }
  }

  /** In a fresh limiter an identity is required exactly of the tags with owned addresses. */
  lemma {:induction false} FreshRequirements(list: seq<Snapshot>, p: Parser, s: Snapshot)
    requires DistinctTags(list) && s in list
    ensures s.tag in Restored(list, p) && Restored(list, p)[s.tag] == LiveOf(s, false, p)
  {
    var init, last := list[..|list| - 1], list[|list| - 1];
    LastReplaces(list);
    RestoredReflects(init, p);
    if s == last {
      LastTagIsNew(list);
    } else {
      assert s in init by {
        var i :| 0 <= i < |list| && list[i] == s;
        assert init[i] == s;
      }
      FreshRequirements(init, p, s);
    }
  }

  lemma LastTagIsNew(list: seq<Snapshot>)
    requires DistinctTags(list) && list != []
    ensures forall s :: s in list[..|list| - 1] ==> s.tag != list[|list| - 1].tag
  {
    var init := list[..|list| - 1];
    forall s | s in init ensures s.tag != list[|list| - 1].tag {
      var i :| 0 <= i < |init| && init[i] == s;
      assert list[i] == s;
    }
  }

  /** The limiter holds every snapshot of the list and no other tag, and an identity is required
      exactly of the tags with owned addresses. */
  ghost predicate RestoredFrom(live: map<string, Live>, list: seq<Snapshot>, p: Parser)
  {
    && (forall tag :: tag in live ==> exists s :: s in list && s.tag == tag)
    && (forall s :: s in list ==>
          s.tag in live && Says(live[s.tag], s, p) && (live[s.tag].required <==> live[s.tag].wireGuard != map[]))
  }

  lemma FreshSays(list: seq<Snapshot>, p: Parser)
    requires DistinctTags(list)
    ensures RestoredFrom(Restored(list, p), list, p)
  {
    RestoredReflects(list, p);
    forall s | s in list
      ensures var live := Restored(list, p)[s.tag]; Says(live, s, p) && (live.required <==> live.wireGuard != map[])
    {
      FreshRequirements(list, p, s);
      LiveMeans(s, false, p);
    }
  }

  /** The limiter says of the tag what the snapshot says, and of the others what it said. An identity
      that was required of the tag stays required. */
  ghost predicate HandedOver(before: map<string, Live>, live: map<string, Live>, s: Snapshot, p: Parser)
  {
    && s.tag in live && live == before[s.tag := live[s.tag]] && Says(live[s.tag], s, p)
    && (live[s.tag].required <==> live[s.tag].wireGuard != map[] || (s.tag in before && before[s.tag].required))
  }

  lemma SyncedHandsOver(live: map<string, Live>, s: Snapshot, p: Parser)
    ensures HandedOver(live, Synced(live, s, p), s, p)
  {
    LiveMeans(s, s.tag in live && live[s.tag].required, p);
  }

  /** A file is read as a whole or not at all. */
  ghost function FileOf(file: Option<seq<Snapshot>>, p: Parser): File
  {
    if file.None? then Missing else if Readable(file.value, p) then Holding(ContentsOf(file.value)) else Unreadable
  }

  class Store {
    const embedded: bool
    const p: Parser
    var file: Option<seq<Snapshot>>
    var marker: bool
    var running: bool
    var live: map<string, Live>
    ghost var held: File

    /** `held` is what the file says. */
    ghost predicate Valid()
      reads this
    {
      held == FileOf(file, p)
    }

    ghost function Now(): State
      reads this
    {
      State(embedded, held, marker, running, live)
    }

    constructor (embedded: bool, p: Parser, file: Option<seq<Snapshot>>, marker: bool)
      ensures Valid() && this.embedded == embedded && this.p == p && this.file == file && this.marker == marker
      ensures !running && live == map[]
    {
      this.embedded, this.p, this.file, this.marker := embedded, p, file, marker;
      running, live := false, map[];
      held := FileOf(file, p);
    }

    method Read() returns (ok: bool, list: seq<Snapshot>)
      requires Valid()
      ensures ok <==> !held.Unreadable?
      ensures ok ==> Readable(list, p) && ContentsOf(list) == Contents(held) && (held.Missing? <==> file.None?)
      ensures ok ==> list == if file.Some? then file.value else []
    {
      if file.None? {
        return true, [];
      }
      list := file.value;
      ok := CheckSnapshots(list, p);
    }

    method Put(list: Option<seq<Snapshot>>, ghost f: File, w: Write)
      modifies this`file, this`held
      ensures file == if Applied(w) then list else old(file)
      ensures held == if Applied(w) then f else old(held)
    {
      match w
      case FailedBefore =>
      case Done => file, held := list, f;
      case FailedAfter => file, held := list, f;
    }

    method PutBack(list: Option<seq<Snapshot>>, ghost f: File, works: bool)
      modifies this`file, this`held
      ensures if works then file == list && held == f else file == old(file) && held == old(held)
    {
      if works {
        file, held := list, f;
      }
    }

    /** Records a snapshot, then hands it to the running limiter, if there is an embedded Xray at all.
        When that fails the file is put back; a write that reports an error is left as it is. */
    method Deliver(s: Snapshot, reachable: bool, w: Write, undo: bool) returns (ok: bool)
      requires Valid()
      modifies this
      ensures Valid() && Now() == Delivered(old(Now()), s, reachable, w, undo, p)
      ensures ok <==> Delivers(old(Now()), s, reachable, w, p)
      ensures ok <==>
                && ValidSnapshot(s, p) && (old(file).Some? ==> Readable(old(file).value, p)) && w == Done
                && (embedded ==> running && reachable)
      ensures ok ==> file.Some? && ReplacedBy(if old(file).Some? then old(file).value else [], s, file.value)
      ensures if ok && embedded then HandedOver(old(live), live, s, p) else live == old(live)
    {
      ok := Validate(s, p);
      if !ok {
        return;
      }
      var previous;
      ok, previous := Read();
      if !ok {
        return;
      }
      var existed := file;
      ghost var before := held;
      var updated := ReplaceSnapshot(previous, s);
      ReplacedContents(previous, s, updated);
      ReplacedReadable(previous, s, updated, p);
      Put(Some(updated), Holding(ContentsOf(updated)), w);
      if !w.Done? {
        return false;
      }
      if embedded {
        if !running || !reachable {
          PutBack(existed, before, undo);
          return false;
        }
        HandOver(s);
      }
    }

    method HandOver(s: Snapshot)
      modifies this`live
      ensures live == Synced(old(live), s, p) && HandedOver(old(live), live, s, p)
    {
      SyncedHandsOver(live, s, p);
      live := Synced(live, s, p);
    }

    /** Reads what a deletion of the tag would have to touch. */
    method Inspect(tag: string, force: bool, reachable: bool)
      returns (may: bool, concerned: bool, updated: seq<Snapshot>, found: bool, ghost unmarks: bool)
      requires Valid()
      ensures may <==> MayDelete(Now(), tag, reachable)
      ensures may ==> concerned == Concerned(Now(), tag, force) && found == (tag in Contents(held)) && unmarks == Unmarks(Now(), tag)
      ensures may ==> FileOf(file, p) == held && Readable(updated, p) && ContentsOf(updated) == Contents(held) - {tag}
      ensures may ==> (unmarks <==> marker && forall s :: s in updated ==> s.peers == [])
    {
      may, concerned, updated, found, unmarks := false, false, [], false, false;
      if tag == "" || (embedded && (!running || !reachable)) {
        return;
      }
      var ok, previous := Read();
      if !ok || (marker && file.None?) {
        return;
      }
      var wasWireGuard;
      updated, found, wasWireGuard := RemoveSnapshot(previous, tag);
      WithoutContents(previous, tag, updated);
      WithoutReadable(previous, tag, updated, p);
      WasWireGuard(previous, tag);
      may, unmarks := true, Unmarks(Now(), tag);
      concerned := force || wasWireGuard || (running && tag in live && live[tag].required);
    }

    /** Drops what is known about a tag, in the file, the marker and the limiter. `force` is set when
        the inbound that goes was WireGuard. */
    method Delete(tag: string, force: bool, reachable: bool, w: Write, m: Write, undo: bool, remark: bool) returns (ok: bool)
      requires Valid()
      modifies this
      ensures Valid() && Now() == Deleted(old(Now()), p.trim(tag), force, reachable, w, m, undo, remark)
      ensures ok <==> Deletes(old(Now()), p.trim(tag), force, reachable, w, m)
    {
      var own := p.trim(tag);
      var concerned, updated, found;
      ghost var unmarks;
      ok, concerned, updated, found, unmarks := Inspect(own, force, reachable);
      if ok && concerned {
        ok := Carry(own, updated, Holding(ContentsOf(updated)), found, unmarks, w, m, undo, remark);
      }
    }

    method Carry(tag: string, updated: seq<Snapshot>, ghost rewritten: File, found: bool, ghost unmarks: bool,
                 w: Write, m: Write, undo: bool, remark: bool) returns (ok: bool)
      requires unmarks <==> marker && forall s :: s in updated ==> s.peers == []
      modifies this
      ensures ok <==> Carried(found, unmarks, w, m)
      ensures (file == old(file) && held == old(held)) || (file == Some(updated) && held == rewritten)
      ensures Now() == CarriedOut(old(Now()), tag, rewritten, found, unmarks, w, m, undo, remark)
    {
      var existed := file;
      ghost var before := held;
      ok := true;
      if found {
        ok := Strike(updated, rewritten, w, undo);
      }
      if ok {
        ok := Finish(tag, existed, updated, before, unmarks, m, undo, remark);
      }
    }

    /** Writes the file without the tag; a file that could not be written is put back. */
    method Strike(updated: seq<Snapshot>, ghost rewritten: File, w: Write, undo: bool) returns (ok: bool)
      modifies this`file, this`held
      ensures ok == w.Done?
      ensures if Applied(w) && (ok || !undo) then file == Some(updated) && held == rewritten
              else file == old(file) && held == old(held)
    {
      var existed := file;
      ghost var before := held;
      Put(Some(updated), rewritten, w);
      ok := w.Done?;
      if !ok {
        PutBack(existed, before, undo);
      }
    }

    /** Removes the marker when no peers are left, and then the limiter of the tag; a marker that
        cannot be removed goes back with the file. */
    method Finish(tag: string, existed: Option<seq<Snapshot>>, updated: seq<Snapshot>, ghost before: File, ghost unmarks: bool,
                  m: Write, undo: bool, remark: bool) returns (ok: bool)
      requires unmarks <==> marker && forall s :: s in updated ==> s.peers == []
      modifies this
      ensures ok <==> (unmarks ==> m.Done?)
      ensures if !ok && undo then file == existed && held == before else file == old(file) && held == old(held)
      ensures Now() == Finished(old(Now()), before, tag, unmarks, m, undo, remark)
    {
      if marker && (forall s :: s in updated ==> s.peers == []) {
        marker := !Applied(m);
        if !m.Done? {
          PutBack(existed, before, undo);
          marker := marker || remark;
          return false;
        }
      }
      if running {
        live := live - {tag};
      }
      ok := true;
    }

    method Restore(list: seq<Snapshot>) returns (restored: map<string, Live>)
      requires DistinctTags(list)
      ensures restored == Fresh(ContentsOf(list), p) && RestoredFrom(restored, list, p)
    {
      restored := map[];
      assert list[..0] == [];
      for n := 0 to |list|
        invariant restored == Restored(list[..n], p)
      {
        assert list[..n + 1][..n] == list[..n];
        restored := Synced(restored, list[n], p);
      }
      assert list[..|list|] == list;
      RestoredIsFresh(list, p);
      FreshSays(list, p);
    }

    /** Starts an embedded Xray on a limiter that holds every snapshot. */
    method Start(fails: bool) returns (ok: bool)
      requires Valid()
      modifies this`running, this`live
      ensures Valid() && Now() == StartedFrom(old(Now()), fails, p)
      ensures ok <==> Starts(old(Now()), fails)
      ensures ok <==>
                && embedded && !fails && (file.Some? ==> Readable(file.value, p)) && (marker ==> file.Some?)
      ensures ok ==> running && RestoredFrom(live, if file.Some? then file.value else [], p)
      ensures !ok ==> running == old(running) && live == old(live)
    {
      if !embedded {
        return false;
      }
      var list;
      ok, list := Read();
      if !ok || (marker && file.None?) || fails {
        return false;
      }
      live := Restore(list);
      running := true;
    }

    method Stop()
      requires Valid()
      modifies this`running, this`live
      ensures Valid() && Now() == After(old(Now()), Stopping, p)
    {
      running := false;
      live := map[];
    }
  }

  lemma ReplacedReadable(list: seq<Snapshot>, s: Snapshot, after: seq<Snapshot>, p: Parser)
    requires Readable(list, p) && ValidSnapshot(s, p) && DistinctTags(after) && ReplacedBy(list, s, after)
    ensures Readable(after, p)
  {
    forall i | 0 <= i < |after| ensures ValidSnapshot(after[i], p) {
      assert after[i] in after;
    }
  }

  lemma WithoutReadable(list: seq<Snapshot>, tag: string, after: seq<Snapshot>, p: Parser)
    requires Readable(list, p) && DistinctTags(after) && Without(list, tag, after)
    ensures Readable(after, p)
  {
    forall i | 0 <= i < |after| ensures ValidSnapshot(after[i], p) {
      assert after[i] in after;
    }
  }

  lemma WasWireGuard(list: seq<Snapshot>, tag: string)
    requires DistinctTags(list)
    ensures (exists s :: s in list && s.tag == tag && s.peers != []) <==> tag in ContentsOf(list) && ContentsOf(list)[tag].peers != []
  {
    ContentsAre(list, tag);
  }
}

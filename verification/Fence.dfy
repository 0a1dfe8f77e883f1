/** The inbound mutation fence: which add owns a tag, which adds were cancelled, and the
    write-ahead record that decides the owner after a crash. */
module Fences {
  import opened Json
  import opened InboundConfig
  import opened Writes

  // ----- what the fence records -----

  /** The write-ahead record of an add. */
  datatype Pending = Pending(
    owner: string,
    configPath: string,
    intendedDigest: string,
    previousOwner: string,
    previousStatePresent: bool,
    previousPresent: bool,
    previousDigest: string)

  datatype State = State(owner: string, canceled: set<string>, pending: Option<Pending>)

  type States = map<string, State>

  const NOTHING := State("", {}, None)

  predicate Blank(st: State)
  {
    st == NOTHING
  }

  function At(states: States, tag: string): State
  {
    if tag in states then states[tag] else NOTHING
  }

  predicate IsPending(states: States, tag: string)
  {
    tag in states && states[tag].pending.Some?
  }

  ghost predicate NoPending(states: States)
  {
    forall tag :: tag in states ==> states[tag].pending.None?
  }

  /** What the sidecar holds after the states have been written: blank entries are not stored. */
  function OnFile(states: States): States
  {
    map tag | tag in states && !Blank(states[tag]) :: states[tag]
  }

  /** A state is stored unless it has no owner, no cancelled id and no record. */
  lemma OnFileMeans(states: States, tag: string)
    ensures tag in OnFile(states) <==>
              tag in states && (states[tag].owner != "" || states[tag].canceled != {} || states[tag].pending != None)
    ensures tag in OnFile(states) ==> OnFile(states)[tag] == states[tag]
    ensures tag !in OnFile(states) ==> At(states, tag) == State("", {}, None)
  {
  }

  /** The memory of the fence and the sidecar file behind it. */
  datatype Ledger = Ledger(loaded: bool, states: States, ready: bool, sidecar: States)

  function Loaded(l: Ledger): Ledger
  {
    if l.loaded then l else l.(loaded := true, states := l.sidecar)
  }

  function Persisted(l: Ledger, candidate: States, w: Write): Ledger
  {
    if Applied(w) then l.(states := candidate, sidecar := OnFile(candidate)) else l
  }

  /** What every state keeps: the record of an add names the owner it replaces, and an id that may
      still become owner was not cancelled. */
  predicate SoundState(st: State)
  {
    st.pending.Some? ==>
      && st.pending.value.previousOwner == st.owner
      && st.pending.value.owner != ""
      && st.pending.value.owner !in st.canceled
  }

  ghost predicate Sound(states: States)
  {
    forall tag: string :: SoundState(At(states, tag))
  }

  ghost predicate SoundLedger(l: Ledger)
  {
    && Sound(l.sidecar) && OnFile(l.sidecar) == l.sidecar
    && (l.loaded ==> OnFile(l.states) == l.sidecar)
    && (l.ready ==> l.loaded)
  }

  /** Memory and sidecar say the same about every tag. */
  lemma LedgerAgrees(l: Ledger, tag: string)
    requires SoundLedger(l)
    ensures At(Loaded(l).states, tag) == At(l.sidecar, tag)
    ensures SoundLedger(Loaded(l))
  {
  }

  // ----- what the configuration files say -----

  /** The inbounds a configuration file holds for each tag, in order. */
  type Config = map<string, seq<Fields>>

  function Copies(c: Config, tag: string): seq<Fields>
  {
    if tag in c then c[tag] else []
  }

  /** The configuration files that exist, and the path of the one in use. */
  datatype Disk = Disk(configs: map<string, Config>, path: string)

  function First(c: Config, tag: string): Option<Fields>
  {
    if Copies(c, tag) == [] then None else Some(Copies(c, tag)[0])
  }

  function DigestOf(inbound: Option<Fields>, digest: Fields -> string): string
  {
    if inbound.Some? then digest(inbound.value) else ""
  }

  predicate SameGeneration(a: Option<Fields>, b: Option<Fields>, digest: Fields -> string)
  {
    a.Some? == b.Some? && DigestOf(a, digest) == DigestOf(b, digest)
  }

  /** The recorded path of an add, and the current one where that is another. */
  function Paths(pending: Pending, current: string): seq<string>
  {
    if current == "" || current == pending.configPath then [pending.configPath] else [pending.configPath, current]
  }

  function Existing(configs: map<string, Config>, paths: seq<string>): seq<Config>
  {
    if paths == [] then []
    else
      var last := paths[|paths| - 1];
      Existing(configs, paths[..|paths| - 1]) + if last in configs then [configs[last]] else []
  }

  datatype Actual = Undecided | Actual(inbound: Option<Fields>)

  function ActualIn(files: seq<Config>, tag: string, digest: Fields -> string): Actual
  {
    if files == [] then Undecided
    else
      var last := files[|files| - 1];
      if |Copies(last, tag)| > 1 then Undecided
      else if |files| == 1 then Actual(First(last, tag))
      else
        var before := ActualIn(files[..|files| - 1], tag, digest);
        if before.Actual? && SameGeneration(before.inbound, First(last, tag), digest) then before else Undecided
  }

  /** The files decide about a tag exactly when there is one, none has the tag twice, and all agree. */
  lemma {:induction false} DecidedBy(files: seq<Config>, tag: string, digest: Fields -> string)
    ensures ActualIn(files, tag, digest).Actual? <==>
              && files != []
              && (forall i :: 0 <= i < |files| ==> |Copies(files[i], tag)| <= 1)
              && (forall i :: 0 <= i < |files| ==> SameGeneration(First(files[0], tag), First(files[i], tag), digest))
    ensures ActualIn(files, tag, digest).Actual? ==> ActualIn(files, tag, digest).inbound == First(files[0], tag)
  {
    if |files| > 1 {
      var before, last := files[..|files| - 1], files[|files| - 1];
      DecidedBy(before, tag, digest);
      assert forall i :: 0 <= i < |files| ==> files[i] == if i < |before| then before[i] else last;
    }
  }

  function ActualInbound(disk: Disk, tag: string, pending: Pending, digest: Fields -> string): Actual
  {
    ActualIn(Existing(disk.configs, Paths(pending, disk.path)), tag, digest)
  }

  lemma FilesRead(disk: Disk, pending: Pending)
    ensures Existing(disk.configs, Paths(pending, disk.path))
         == (if pending.configPath in disk.configs then [disk.configs[pending.configPath]] else [])
          + (if disk.path in disk.configs && disk.path != "" && disk.path != pending.configPath then [disk.configs[disk.path]] else [])
  {
    var paths := Paths(pending, disk.path);
    assert paths[..0] == [] && Existing(disk.configs, paths[..0]) == [];
    ExistingNext(disk.configs, paths, 0);
    if |paths| == 2 {
      ExistingNext(disk.configs, paths, 1);
      assert paths[..2] == paths;
    } else {
      assert paths[..1] == paths;
    }
  }

  lemma ActualOfOne(x: Config, tag: string, digest: Fields -> string)
    ensures ActualIn([x], tag, digest) == if |Copies(x, tag)| <= 1 then Actual(First(x, tag)) else Undecided
  {
  }

  lemma ActualOfTwo(x: Config, y: Config, tag: string, digest: Fields -> string)
    ensures ActualIn([x, y], tag, digest) ==
              if |Copies(x, tag)| <= 1 && |Copies(y, tag)| == |Copies(x, tag)|
                 && (|Copies(x, tag)| == 1 ==> digest(Copies(x, tag)[0]) == digest(Copies(y, tag)[0]))
              then Actual(First(x, tag)) else Undecided
  {
    assert [x, y][..1] == [x];
    ActualOfOne(x, tag, digest);
  }

  /** No file has the tag twice, and all have it with one digest or not at all. */
  ghost predicate Agree(configs: map<string, Config>, files: set<string>, tag: string, digest: Fields -> string)
    requires files <= configs.Keys
  {
    && (forall p :: p in files ==> |Copies(configs[p], tag)| <= 1)
    && (forall p, q :: p in files && q in files ==> |Copies(configs[p], tag)| == |Copies(configs[q], tag)|)
    && (forall p, q :: p in files && q in files && Copies(configs[p], tag) != [] && Copies(configs[q], tag) != [] ==>
          digest(Copies(configs[p], tag)[0]) == digest(Copies(configs[q], tag)[0]))
  }

  lemma AgreeOfTwo(configs: map<string, Config>, p: string, q: string, tag: string, digest: Fields -> string)
    requires p in configs && q in configs
    ensures Agree(configs, {p, q}, tag, digest) <==>
              && |Copies(configs[p], tag)| <= 1 && |Copies(configs[q], tag)| == |Copies(configs[p], tag)|
              && (|Copies(configs[p], tag)| == 1 ==> digest(Copies(configs[p], tag)[0]) == digest(Copies(configs[q], tag)[0]))
  {
    assert p in {p, q} && q in {p, q};
  }

  lemma AgreeOfOne(configs: map<string, Config>, p: string, tag: string, digest: Fields -> string)
    requires p in configs
    ensures Agree(configs, {p}, tag, digest) <==> |Copies(configs[p], tag)| <= 1
  {
    assert p in {p};
  }

  /** Whether the current path is another one, with a file. */
  predicate ReadsBoth(disk: Disk, pending: Pending)
  {
    disk.path in disk.configs && disk.path != "" && disk.path != pending.configPath
  }

  lemma ActualOfPair(disk: Disk, tag: string, pending: Pending, digest: Fields -> string)
    requires pending.configPath in disk.configs && ReadsBoth(disk, pending)
    ensures ActualInbound(disk, tag, pending, digest) ==
              if Agree(disk.configs, {pending.configPath, disk.path}, tag, digest)
              then Actual(First(disk.configs[pending.configPath], tag)) else Undecided
  {
    var x, y := disk.configs[pending.configPath], disk.configs[disk.path];
    FilesRead(disk, pending);
    assert [x] + [y] == [x, y];
    ActualOfTwo(x, y, tag, digest);
    AgreeOfTwo(disk.configs, pending.configPath, disk.path, tag, digest);
  }

  lemma ActualOfSingle(disk: Disk, tag: string, pending: Pending, digest: Fields -> string, p: string)
    requires p in disk.configs
    requires if pending.configPath in disk.configs then p == pending.configPath && !ReadsBoth(disk, pending)
             else p == disk.path && ReadsBoth(disk, pending)
    ensures ActualInbound(disk, tag, pending, digest) ==
              if Agree(disk.configs, {p}, tag, digest) then Actual(First(disk.configs[p], tag)) else Undecided
  {
    FilesRead(disk, pending);
    ActualOfOne(disk.configs[p], tag, digest);
    AgreeOfOne(disk.configs, p, tag, digest);
  }

  lemma FilesAre(disk: Disk, pending: Pending)
    ensures (set p | p in disk.configs && (p == pending.configPath || (p == disk.path && p != ""))) ==
              (if pending.configPath in disk.configs then {pending.configPath} else {})
            + (if ReadsBoth(disk, pending) then {disk.path} else {})
  {
  }

  /** The files that count for a pending add are the one its record names and the one in use, as far
      as they exist. They decide exactly when there is one and they agree; the inbound is that of the
      recorded file where that exists. */
  lemma ActualMeans(disk: Disk, tag: string, pending: Pending, digest: Fields -> string)
    ensures var files := set p | p in disk.configs && (p == pending.configPath || (p == disk.path && p != ""));
            var r := ActualInbound(disk, tag, pending, digest);
            && (r.Actual? <==> files != {} && Agree(disk.configs, files, tag, digest))
            && (r.Actual? ==>
                  Copies(disk.configs[if pending.configPath in files then pending.configPath else disk.path], tag)
                  == if r.inbound.Some? then [r.inbound.value] else [])
  {
    FilesAre(disk, pending);
    var files := set p | p in disk.configs && (p == pending.configPath || (p == disk.path && p != ""));
    if pending.configPath in disk.configs && ReadsBoth(disk, pending) {
      assert files == {pending.configPath, disk.path};
      ActualOfPair(disk, tag, pending, digest);
      AgreedOnce(disk.configs, files, pending.configPath, tag, digest);
    } else if files != {} {
      var p := if pending.configPath in disk.configs then pending.configPath else disk.path;
      assert files == {p};
      ActualOfSingle(disk, tag, pending, digest, p);
      AgreedOnce(disk.configs, files, p, tag, digest);
    } else {
      FilesRead(disk, pending);
    }
  }

  lemma AgreedOnce(configs: map<string, Config>, files: set<string>, p: string, tag: string, digest: Fields -> string)
    requires files <= configs.Keys && p in files
    ensures Agree(configs, files, tag, digest) ==>
              Copies(configs[p], tag) == if First(configs[p], tag).Some? then [First(configs[p], tag).value] else []
  {
  }

  method ScanFiles(disk: Disk, tag: string, pending: Pending, digest: Fields -> string) returns (r: Actual)
    ensures r == ActualInbound(disk, tag, pending, digest)
  {
    var paths := Paths(pending, disk.path);
    r := Undecided;
    assert paths[..0] == [];
    for n := 0 to |paths|
      invariant r == ActualIn(Existing(disk.configs, paths[..n]), tag, digest)
      invariant r.Undecided? ==> Existing(disk.configs, paths[..n]) == []
    {
      ExistingNext(disk.configs, paths, n);
      if paths[n] !in disk.configs {
        continue;
      }
      var config := disk.configs[paths[n]];
      ActualNext(Existing(disk.configs, paths[..n]), config, tag, digest);
      var inbound := First(config, tag);
      if |Copies(config, tag)| > 1 || (r.Actual? && !SameGeneration(r.inbound, inbound, digest)) {
        UndecidedStays(disk.configs, paths, n + 1, tag, digest);
        return Undecided;
      }
      if r.Undecided? {
        r := Actual(inbound);
      }
    }
    assert paths[..|paths|] == paths;
  }

  method FindActualInbound(disk: Disk, tag: string, pending: Pending, digest: Fields -> string) returns (r: Actual)
    ensures r == ActualInbound(disk, tag, pending, digest)
    ensures var files := set p | p in disk.configs && (p == pending.configPath || (p == disk.path && p != ""));
            && (r.Actual? <==> files != {} && Agree(disk.configs, files, tag, digest))
            && (r.Actual? ==>
                  Copies(disk.configs[if pending.configPath in files then pending.configPath else disk.path], tag)
                  == if r.inbound.Some? then [r.inbound.value] else [])
  {
    r := ScanFiles(disk, tag, pending, digest);
    ActualMeans(disk, tag, pending, digest);
  }

  lemma ExistingNext(configs: map<string, Config>, paths: seq<string>, n: nat)
    requires n < |paths|
    ensures paths[n] in configs ==> Existing(configs, paths[..n + 1]) == Existing(configs, paths[..n]) + [configs[paths[n]]]
    ensures paths[n] !in configs ==> Existing(configs, paths[..n + 1]) == Existing(configs, paths[..n])
  {
    assert paths[..n + 1][..n] == paths[..n];
  }

  lemma ActualNext(files: seq<Config>, config: Config, tag: string, digest: Fields -> string)
    ensures ActualIn(files + [config], tag, digest) ==
            if |Copies(config, tag)| > 1 then Undecided
            else if files == [] then Actual(First(config, tag))
            else if ActualIn(files, tag, digest).Actual? && SameGeneration(ActualIn(files, tag, digest).inbound, First(config, tag), digest)
            then ActualIn(files, tag, digest) else Undecided
  {
    assert (files + [config])[..|files|] == files;
  }

  lemma {:induction false} UndecidedStays(configs: map<string, Config>, paths: seq<string>, n: nat, tag: string, digest: Fields -> string)
    requires n <= |paths| && Existing(configs, paths[..n]) != []
    requires ActualIn(Existing(configs, paths[..n]), tag, digest).Undecided?
    ensures ActualIn(Existing(configs, paths), tag, digest).Undecided?
    decreases |paths| - n
  {
    if n == |paths| {
      assert paths[..n] == paths;
    } else {
      ExistingNext(configs, paths, n);
      if paths[n] in configs {
        ActualNext(Existing(configs, paths[..n]), configs[paths[n]], tag, digest);
      }
      UndecidedStays(configs, paths, n + 1, tag, digest);
    }
  }

  // ----- deciding a pending add -----

  datatype Resolution = Intended | Previous | Refused

  function Decision(actual: Actual, pending: Pending, digest: Fields -> string): Resolution
  {
    if actual.Undecided? then Refused
    else if actual.inbound.Some? && DigestOf(actual.inbound, digest) == pending.intendedDigest then Intended
    else if actual.inbound.Some? == pending.previousPresent
         && (actual.inbound.None? || DigestOf(actual.inbound, digest) == pending.previousDigest) then Previous
    else Refused
  }

  function ResolutionOf(tag: string, pending: Pending, disk: Disk, digest: Fields -> string): Resolution
  {
    Decision(ActualInbound(disk, tag, pending, digest), pending, digest)
  }

  predicate Decided(tag: string, st: State, disk: Disk, digest: Fields -> string)
  {
    st.pending.Some? ==>
      st.pending.value.previousOwner == st.owner && !ResolutionOf(tag, st.pending.value, disk, digest).Refused?
  }

  ghost predicate AllDecided(states: States, disk: Disk, digest: Fields -> string)
  {
    forall tag :: tag in states ==> Decided(tag, states[tag], disk, digest)
  }

  /** The state of a tag once its pending add has been decided. */
  function Settled(tag: string, st: State, disk: Disk, digest: Fields -> string): State
  {
    if st.pending.None? then st
    else if ResolutionOf(tag, st.pending.value, disk, digest).Intended? then State(st.pending.value.owner, st.canceled, None)
    else State(st.pending.value.previousOwner, st.canceled, None)
  }

  /** Deciding for the previous generation drops an entry that the add had created. */
  predicate Dropped(tag: string, st: State, disk: Disk, digest: Fields -> string)
  {
    && st.pending.Some? && !st.pending.value.previousStatePresent
    && ResolutionOf(tag, st.pending.value, disk, digest).Previous?
    && Settled(tag, st, disk, digest) == NOTHING
  }

  function Resolved(states: States, disk: Disk, digest: Fields -> string): States
  {
    map tag | tag in states && !Dropped(tag, states[tag], disk, digest) :: Settled(tag, states[tag], disk, digest)
  }

  lemma ResolvedAt(states: States, disk: Disk, digest: Fields -> string, tag: string)
    ensures At(Resolved(states, disk, digest), tag) == Settled(tag, At(states, tag), disk, digest)
  {
  }

  /** Resolving changes nothing unless every pending add can be decided; then all of them are, in
      one write. */
  ghost function AfterResolve(l: Ledger, disk: Disk, digest: Fields -> string, w: Write): Ledger
  {
    if NoPending(l.states) || !AllDecided(l.states, disk, digest) then l
    else Persisted(l, Resolved(l.states, disk, digest), w)
  }

  ghost predicate ResolveSucceeds(l: Ledger, disk: Disk, digest: Fields -> string, w: Write)
  {
    AllDecided(l.states, disk, digest) && (NoPending(l.states) || w.Done?)
  }

  ghost function AfterEnsure(l: Ledger, disk: Disk, digest: Fields -> string, w: Write): Ledger
  {
    if Loaded(l).ready then AfterResolve(Loaded(l), disk, digest, w) else Loaded(l)
  }

  ghost predicate EnsureSucceeds(l: Ledger, disk: Disk, digest: Fields -> string, w: Write)
  {
    if Loaded(l).ready then ResolveSucceeds(Loaded(l), disk, digest, w) else NoPending(Loaded(l).states)
  }

  // ----- an add -----

  /** A request to add an inbound, with the owner and the digest it expects to replace, if any. */
  datatype Request = Request(
    tag: string,
    mutationId: string,
    inbound: Fields,
    expectedOwner: Option<string>,
    expectedDigest: string)

  datatype Transaction = Transaction(tag: string, owner: string, previous: State, previousExists: bool)

  predicate ExpectationFails(previous: State, req: Request, previousInbound: Option<Fields>, digest: Fields -> string)
  {
    if req.expectedOwner.None? then req.expectedDigest != ""
    else
      || req.mutationId == "" || previous.owner != TrimSpace(req.expectedOwner.value) || req.expectedDigest == ""
      || previousInbound.None? || digest(previousInbound.value) != req.expectedDigest
  }

  /** Why an add is turned down before anything is written. */
  predicate Rejected(previous: State, req: Request, path: string, previousInbound: Option<Fields>, digest: Fields -> string)
  {
    || previous.pending.Some?
    || ExpectationFails(previous, req, previousInbound, digest)
    || (if req.mutationId == "" then previous.owner != "" || previous.canceled != {}
        else req.mutationId in previous.canceled || path == "")
  }

  /** An add goes on exactly when the tag has no pending add, the caller's expectation is met, and
      either the tag has no history or the add names an id that was not cancelled. An expected owner
      is met when it is the owner and the file has the inbound with the expected digest. */
  lemma RejectedMeans(previous: State, req: Request, path: string, previousInbound: Option<Fields>, digest: Fields -> string)
    ensures !Rejected(previous, req, path, previousInbound, digest) <==>
              && previous.pending == None
              && (req.expectedOwner == None ==> req.expectedDigest == "")
              && (req.expectedOwner != None ==>
                    && req.mutationId != ""
                    && TrimSpace(req.expectedOwner.value) == previous.owner
                    && req.expectedDigest != ""
                    && previousInbound != None && digest(previousInbound.value) == req.expectedDigest)
              && (req.mutationId == "" ==> previous.owner == "" && previous.canceled == {})
              && (req.mutationId != "" ==> req.mutationId !in previous.canceled && path != "")
  {
  }

  function PendingOf(previous: State, exists_: bool, req: Request, path: string, previousInbound: Option<Fields>, digest: Fields -> string): Pending
  {
    Pending(req.mutationId, path, digest(req.inbound), previous.owner, exists_, previousInbound.Some?, DigestOf(previousInbound, digest))
  }

  /** The states with the record of the add in them. */
  function Reserved(states: States, req: Request, path: string, previousInbound: Option<Fields>, digest: Fields -> string): States
  {
    var previous := At(states, req.tag);
    var pending := PendingOf(previous, req.tag in states, req, path, previousInbound, digest);
    states[req.tag := previous.(pending := Some(pending))]
  }

  function TransactionOf(states: States, req: Request): Transaction
  {
    Transaction(req.tag, req.mutationId, At(states, req.tag), req.tag in states)
  }

  function PutBack(states: States, txn: Transaction): States
  {
    if txn.previousExists then states[txn.tag := txn.previous] else states - {txn.tag}
  }

  /** The two writes of a reservation: the record, and taking it back when the first write failed
      after its rename. */
  function AfterReserve(l: Ledger, req: Request, path: string, previousInbound: Option<Fields>, digest: Fields -> string,
                        w: Write, undo: Write): Ledger
  {
    var reserved := Persisted(l, Reserved(l.states, req, path, previousInbound, digest), w);
    if w.FailedAfter? then Persisted(reserved, PutBack(reserved.states, TransactionOf(l.states, req)), undo) else reserved
  }

  // ----- committing -----

  /** What the recorded path holds for the tag; `Undecided` when that cannot be told. */
  function DurableInbound(disk: Disk, path: string, tag: string): Actual
  {
    if path !in disk.configs then Actual(None)
    else if |Copies(disk.configs[path], tag)| > 1 then Undecided
    else Actual(First(disk.configs[path], tag))
  }

  /** The record of the transaction is in place and the file holds its generation. */
  predicate Committable(l: Ledger, txn: Transaction, disk: Disk, digest: Fields -> string)
  {
    && IsPending(l.states, txn.tag) && l.states[txn.tag].pending.value.owner == txn.owner
    && var pending := l.states[txn.tag].pending.value;
    var actual := DurableInbound(disk, pending.configPath, txn.tag);
    actual.Actual? && actual.inbound.Some? && DigestOf(actual.inbound, digest) == pending.intendedDigest
  }

  function Committed(states: States, txn: Transaction): States
    requires txn.tag in states
  {
    states[txn.tag := State(txn.owner, states[txn.tag].canceled, None)]
  }

  function AfterCommit(l: Ledger, txn: Transaction, disk: Disk, digest: Fields -> string, w: Write): Ledger
  {
    if Committable(l, txn, disk, digest) then Persisted(l, Committed(l.states, txn), w) else l
  }

  // ----- a remove -----

  datatype BeginRemove = Proceed | Superseded | Failed

  function Cancelled(states: States, tag: string, id: string): States
  {
    var st := At(states, tag);
    states[tag := st.(canceled := st.canceled + {id})]
  }

  function RemovalOf(l: Ledger, tag: string, id: string, w: Write): BeginRemove
  {
    if tag == "" then Proceed
    else if id == "" then (if At(l.states, tag).owner == "" then Proceed else Failed)
    else if !w.Done? then Failed
    else if At(l.states, tag).owner != "" && At(l.states, tag).owner != id then Superseded else Proceed
  }

  function AfterBeginRemove(l: Ledger, tag: string, id: string, w: Write): Ledger
  {
    if tag == "" || id == "" then l else Persisted(l, Cancelled(l.states, tag, id), w)
  }

  function Unowned(states: States, tag: string): States
  {
    states[tag := At(states, tag).(owner := "")]
  }

  function AfterCompleteRemoval(l: Ledger, tag: string, id: string, w: Write): Ledger
  {
    if tag == "" || !l.loaded || tag !in l.states || l.states[tag].owner == "" || (id != "" && l.states[tag].owner != id) then l
    else Persisted(l, Unowned(l.states, tag), w)
  }

  // ----- what the operations come to -----

  /** A write that was applied changes memory and sidecar together; otherwise both stay as they were. */
  lemma PersistedMeans(l: Ledger, candidate: States, w: Write)
    ensures w == FailedBefore ==> Persisted(l, candidate, w) == l
    ensures w != FailedBefore ==> Persisted(l, candidate, w) == Ledger(l.loaded, candidate, l.ready, OnFile(candidate))
  {
  }

  /** Deciding a pending add makes its id the owner, or leaves the owner it was to replace; the entry
      is dropped when the add had created it and nothing else is recorded there. */
  lemma ResolvedMeans(states: States, disk: Disk, digest: Fields -> string, tag: string)
    requires tag in states
    ensures var after := Resolved(states, disk, digest);
            match states[tag].pending
            case None => tag in after && after[tag] == states[tag]
            case Some(pending) =>
              var intended := ResolutionOf(tag, pending, disk, digest) == Intended;
              var owner := if intended then pending.owner else pending.previousOwner;
              if tag in after then after[tag] == State(owner, states[tag].canceled, None)
              else owner == "" && states[tag].canceled == {} && !intended && !pending.previousStatePresent
    ensures tag !in Resolved(states, disk, digest) <==>
              && states[tag].pending != None && !states[tag].pending.value.previousStatePresent
              && ResolutionOf(tag, states[tag].pending.value, disk, digest) == Previous
              && states[tag].pending.value.previousOwner == "" && states[tag].canceled == {}
  {
  }

  /** An add is committed when its record is still in place and the recorded file has the tag once,
      with the digest of the record. Then its id is the owner and the record is gone. */
  lemma CommitMeans(l: Ledger, txn: Transaction, disk: Disk, digest: Fields -> string, w: Write)
    ensures var after := AfterCommit(l, txn, disk, digest, w);
            var ready :=
              && txn.tag in l.states && l.states[txn.tag].pending != None
              && var pending := l.states[txn.tag].pending.value;
              && pending.owner == txn.owner
              && pending.configPath in disk.configs
              && |Copies(disk.configs[pending.configPath], txn.tag)| == 1
              && digest(Copies(disk.configs[pending.configPath], txn.tag)[0]) == pending.intendedDigest;
            && (Committable(l, txn, disk, digest) <==> ready)
            && (!ready || w == FailedBefore ==> after == l)
            && (ready && w != FailedBefore ==>
                  && after == l.(states := after.states, sidecar := OnFile(after.states))
                  && after.states == l.states[txn.tag := State(txn.owner, l.states[txn.tag].canceled, None)])
  {
  }

  /** A remove with an id records the id as cancelled first. It goes on unless the tag belongs to
      another id; one without an id needs a tag without owner. */
  lemma RemovalMeans(l: Ledger, tag: string, id: string, w: Write)
    ensures var st := if tag in l.states then l.states[tag] else State("", {}, None);
            var r, after := RemovalOf(l, tag, id, w), AfterBeginRemove(l, tag, id, w);
            && (tag == "" ==> r == Proceed && after == l)
            && (tag != "" && id == "" ==> r == (if st.owner == "" then Proceed else Failed) && after == l)
            && (tag != "" && id != "" ==>
                  && (r == Failed <==> w != Done)
                  && (r == Superseded <==> w == Done && st.owner !in {"", id})
                  && (w == FailedBefore ==> after == l)
                  && (w != FailedBefore ==>
                        && after == l.(states := after.states, sidecar := OnFile(after.states))
                        && after.states == l.states[tag := State(st.owner, st.canceled + {id}, st.pending)]))
  {
  }

  /** Once the inbound is gone the owner is cleared, if it is the one that the remove names or the
      remove names none. */
  lemma CompletionMeans(l: Ledger, tag: string, id: string, w: Write)
    ensures var after := AfterCompleteRemoval(l, tag, id, w);
            var owned := tag != "" && l.loaded && tag in l.states && l.states[tag].owner != "" && (id == "" || l.states[tag].owner == id);
            && (!owned || w == FailedBefore ==> after == l)
            && (owned && w != FailedBefore ==>
                  && after == l.(states := after.states, sidecar := OnFile(after.states))
                  && after.states == l.states[tag := State("", l.states[tag].canceled, l.states[tag].pending)])
  {
  }

  /** A record that is taken back leaves what the tag had before the add, or nothing. */
  lemma PutBackMeans(states: States, req: Request, path: string, previousInbound: Option<Fields>, digest: Fields -> string)
    ensures PutBack(Reserved(states, req, path, previousInbound, digest), TransactionOf(states, req)) == states
  {
  }

  /** A record that could not be written without an error is taken back, unless that fails as well. */
  lemma ReserveMeans(l: Ledger, req: Request, path: string, previousInbound: Option<Fields>, digest: Fields -> string, w: Write, undo: Write)
    ensures var after := AfterReserve(l, req, path, previousInbound, digest, w, undo);
            var reserved := Reserved(l.states, req, path, previousInbound, digest);
            && (w == FailedBefore ==> after == l)
            && (w == Done || (w == FailedAfter && undo == FailedBefore) ==> after == l.(states := reserved, sidecar := OnFile(reserved)))
            && (w == FailedAfter && undo != FailedBefore ==> after == l.(sidecar := OnFile(l.states)))
  {
    PutBackMeans(l.states, req, path, previousInbound, digest);
  }

  /** Before a request that reads the inbounds the records are resolved, if they are ready; if not, it
      is turned down while one is pending. */
  lemma EnsureMeans(l: Ledger, disk: Disk, digest: Fields -> string, w: Write)
    ensures var now := if l.loaded then l else Ledger(true, l.sidecar, l.ready, l.sidecar);
            var pending := exists tag :: tag in now.states && now.states[tag].pending != None;
            && (!pending ==> EnsureSucceeds(l, disk, digest, w) && AfterEnsure(l, disk, digest, w) == now)
            && (pending && !l.ready ==> !EnsureSucceeds(l, disk, digest, w) && AfterEnsure(l, disk, digest, w) == now)
            && (pending && l.ready ==>
                  && (EnsureSucceeds(l, disk, digest, w) <==> AllDecided(now.states, disk, digest) && w == Done)
                  && AfterEnsure(l, disk, digest, w) == if AllDecided(now.states, disk, digest)
                                                        then Persisted(now, Resolved(now.states, disk, digest), w) else now)
  {
  }

  /** All pending adds can be decided when each record replaces the owner that stands there and its
      resolution is not refused. */
  lemma DecidedMeans(states: States, disk: Disk, digest: Fields -> string)
    ensures AllDecided(states, disk, digest) <==>
              forall tag :: tag in states && states[tag].pending != None ==>
                && states[tag].pending.value.previousOwner == states[tag].owner
                && ResolutionOf(tag, states[tag].pending.value, disk, digest) != Refused
  {
  }
}

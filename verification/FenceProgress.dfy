/** Runs in which nothing fails: an add, a rollback, a remove and a recovery reach what they are for. */
module FenceProgress {
  import opened Json
  import opened InboundConfig
  import opened Fences
  import opened FenceMachine
  import opened FenceSafety
  import opened FenceHistory
  import opened FenceQuiet
  import opened Writes

  const FINE := Outcome(Done, true, false, AsBefore, true)

  const ONCE := Care(false, true, true)

  function Fine(pick: string): Event
  {
    Step(pick, FINE)
  }

  /** The next step, without a failure. */
  ghost function Onward(w: World, env: Env): World
  {
    Go(w.host, w.at, "", FINE, env)
  }

  // ----- where runs begin -----

  /** An agent that starts next to a configuration file, and to no sidecar or a sound one without
      records, is at the beginning of a quiet run. */
  lemma FreshIsQuiet(h: Host, env: Env, care: Care)
    requires h.ledger == Ledger(false, map[], false, h.ledger.sidecar)
    requires OnFile(h.ledger.sidecar) == h.ledger.sidecar && NoPending(h.ledger.sidecar) && QuietFiles(h)
    ensures Quiet(World(h, Idle), env, care)
  {
    forall tag: string ensures !Pends(h, tag) && SoundState(At(h.ledger.sidecar, tag)) {
    }
  }

  // ----- an add -----

  /** Where an accepted add ends that meets no failure: the file has what became of its inbound when it
      was prepared again, and so has an external Xray, while an embedded one runs it as it was first.
      The two are the same exactly when the clients it took over can be told apart. With the same digest
      its id owns the tag and no record is left; with another the record stays as it was reserved. */
  lemma AddCompletes(w: World, req: Request, env: Env)
    requires Safe(w) && w.at.Idle? && w.host.running && Snapshot(w.host).Some?
    requires !Turned(w.host, req, env) && req.mutationId != ""
    ensures var begun := StartAdd(w.host, req, Done, env);
            var v := Onward(Onward(Onward(Onward(begun, env), env), env), env);
            var inbound := AddOf(w.host, req, env).inbound;
            var again := Prepared(Snapshot(w.host).value, req.tag, inbound, env);
            && (again == inbound <==> CopiesIdentified(req.inbound, Later(Snapshot(w.host).value, req.tag), env.sprint))
            && v.at.Idle? && v.host.running && v.host.disk.path == w.host.disk.path
            && Live(v.host, req.tag) == Some(if w.host.embedded then inbound else again)
            && Snapshot(v.host).Some? && Copies(Snapshot(v.host).value, req.tag) == [again]
            && (if env.digest(again) == env.digest(inbound)
                then Recorded(v, req.tag) == State(req.mutationId, Recorded(w, req.tag).canceled, None)
                else v.host.ledger == begun.host.ledger)
  {
    var begun := StartAdd(w.host, req, Done, env);
    var add := AddOf(w.host, req, env);
    var again := Prepared(Snapshot(w.host).value, req.tag, add.inbound, env);
    ReservationMade(w, req, env);
    PersistedThenActive(begun.host, add, env);
    PreparedTwice(Snapshot(w.host).value, req.tag, req.inbound, env);
    CommitDecides(Onward(Onward(Onward(begun, env), env), env).host, AfterWriting(begun.host, add, Snapshot(w.host).value, env), again, env);
  }

  /** An accepted add has its record in place before it writes anything else. */
  lemma ReservationMade(w: World, req: Request, env: Env)
    requires Safe(w) && w.at.Idle? && !Turned(w.host, req, env) && req.mutationId != ""
    ensures var begun, add := StartAdd(w.host, req, Done, env), AddOf(w.host, req, env);
            && begun == World(w.host.(ledger := begun.host.ledger), Persisting(add))
            && add.txn.Some? && add.txn.value.tag == add.tag == req.tag && add.txn.value.owner == req.mutationId && add.path == w.host.disk.path
            && SoundLedger(begun.host.ledger) && begun.host.ledger.loaded && IsPending(begun.host.ledger.states, req.tag)
            && begun.host.ledger.states[req.tag].canceled == Recorded(w, req.tag).canceled
            && var p := begun.host.ledger.states[req.tag].pending.value;
               p.owner == req.mutationId && p.configPath == w.host.disk.path && p.intendedDigest == env.digest(add.inbound)
  {
    EveryStepSane(w, Adding(req, Done), env);
    assert StartAdd(w.host, req, Done, env) == Next(w, Adding(req, Done), env);
    LedgerAgrees(w.host.ledger, req.tag);
  }

  lemma PersistedThenActive(h: Host, a: Add, env: Env)
    requires h.running && Snapshot(h).Some? && a.path == h.disk.path && a.built == a.inbound
    ensures var again := Prepared(Snapshot(h).value, a.tag, a.inbound, env);
            var b := AfterWriting(h, a, Snapshot(h).value, env);
            var v := Onward(Onward(Onward(World(h, Persisting(a)), env), env), env);
            && b == a.(built := if h.embedded then a.inbound else again)
            && v.at == Committing(b) && v.host.ledger == h.ledger && v.host.disk.path == h.disk.path && v.host.running
            && Snapshot(v.host).Some? && Live(v.host, a.tag) == Some(b.built)
            && Copies(Snapshot(v.host).value, a.tag) == [again]
  {
    UpsertHolds(Snapshot(h).value, a.tag, a.inbound, env);
    var b := AfterWriting(h, a, Snapshot(h).value, env);
    var h1 := WithConfig(h, a.path, Some(Upsert(Snapshot(h).value, a.tag, a.inbound, env)), Done);
    assert Onward(World(h, Persisting(a)), env) == World(h1, Sealing(b));
    assert Snapshot(h1) == Some(Upsert(Snapshot(h).value, a.tag, a.inbound, env));
    assert Onward(World(h1, Sealing(b)), env) == World(h1, Activating(b));
    assert Onward(World(h1, Activating(b)), env) == Activate(h1, b, FINE);
  }

  lemma CommitDecides(h: Host, a: Add, again: Fields, env: Env)
    requires SoundLedger(h.ledger) && a.txn.Some? && a.txn.value.tag == a.tag
    requires IsPending(h.ledger.states, a.tag) && h.ledger.loaded
    requires var p := h.ledger.states[a.tag].pending.value;
             p.owner == a.txn.value.owner && p.configPath == h.disk.path && p.intendedDigest == env.digest(a.inbound)
    requires Snapshot(h).Some? && Copies(Snapshot(h).value, a.tag) == [again]
    ensures var v := Onward(World(h, Committing(a)), env);
            && v.at.Idle? && v.host == h.(ledger := v.host.ledger)
            && (if env.digest(again) == env.digest(a.inbound)
                then At(v.host.ledger.sidecar, a.tag) == State(a.txn.value.owner, h.ledger.states[a.tag].canceled, None)
                else v.host.ledger == h.ledger)
  {
    if env.digest(again) == env.digest(a.inbound) {
      assert Committable(h.ledger, a.txn.value, h.disk, env.digest);
      var candidate := Committed(h.ledger.states, a.txn.value);
      assert At(OnFile(candidate), a.tag) == At(candidate, a.tag);
    }
  }

  /** A record and a file that speak of different generations. */
  lemma StrandedBy(h: Host, tag: string, original: Option<Fields>, inbound: Fields, again: Fields, env: Env)
    requires h.running && Live(h, tag).Some? && Snapshot(h).Some? && Copies(Snapshot(h).value, tag) == [again]
    requires Pends(h, tag) && RecordOf(h, tag).configPath == h.disk.path && env.digest(again) != env.digest(inbound)
    requires RecordOf(h, tag).intendedDigest == env.digest(inbound) && RecordOf(h, tag).previousPresent == original.Some?
    requires RecordOf(h, tag).previousDigest == DigestOf(original, env.digest)
    ensures Agreed(h, tag) <==> Live(h, tag) == Some(again)
    ensures ResolutionOf(tag, RecordOf(h, tag), h.disk, env.digest)
         == if SameGeneration(original, Some(again), env.digest) then Previous else Refused
  {
    InUseDecides(h, tag, env);
  }

  /** An accepted add that meets no failure, but takes over clients that cannot be told apart, leaves
      the record pending, while all of it counts as ready. An embedded Xray is left with one generation
      and the file with another; an external one has what the file has. A later resolution takes the
      add for undone if the file happens to have the digest of the inbound before it, and otherwise
      refuses. */
  lemma UnidentifiedAddStrands(w: World, req: Request, env: Env)
    requires Safe(w) && w.at.Idle? && w.host.running && w.host.ledger.ready && Snapshot(w.host).Some?
    requires !Turned(w.host, req, env) && req.mutationId != ""
    requires !CopiesIdentified(req.inbound, Later(Snapshot(w.host).value, req.tag), env.sprint)
    requires var inbound := AddOf(w.host, req, env).inbound;
             var again := Prepared(Snapshot(w.host).value, req.tag, inbound, env);
             again != inbound ==> env.digest(again) != env.digest(inbound)
    ensures var begun := StartAdd(w.host, req, Done, env);
            var v := Onward(Onward(Onward(Onward(begun, env), env), env), env);
            && v.at.Idle? && v.host.running && v.host.ledger.ready && Pends(v.host, req.tag)
            && (Agreed(v.host, req.tag) <==> !w.host.embedded)
            && ResolutionOf(req.tag, RecordOf(v.host, req.tag), v.host.disk, env.digest)
               == if SameGeneration(Original(Snapshot(w.host), req.tag), Durable(v.host, req.tag), env.digest) then Previous else Refused
  {
    var begun := StartAdd(w.host, req, Done, env);
    var add := AddOf(w.host, req, env);
    var again := Prepared(Snapshot(w.host).value, req.tag, add.inbound, env);
    AddCompletes(w, req, env);
    var v := Onward(Onward(Onward(Onward(begun, env), env), env), env);
    ReservedRecord(w.host, PreparedRequest(w.host, req, env), add.original, Done, env, req.tag);
    assert v.host.ledger == begun.host.ledger;
    StrandedBy(v.host, req.tag, add.original, add.inbound, again, env);
  }

  // ----- a rollback -----

  /** Wherever an add or a remove gave up, a rollback that meets no failure puts back the
      configuration file it started from, the inbound that was in it, and the record of the tag. A
      managed inbound of an embedded Xray stays off while the server is not authorized. */
  lemma RollbackCompletes(w: World, env: Env, care: Care)
    requires Quiet(w, env, care) && w.at.Restoring? && w.host.running
    ensures var u := w.at.undo;
            var undone := Onward(Onward(Onward(w, env), env), env);
            var v := if u.txn.Some? then Onward(undone, env) else undone;
            && v.at.Idle? && Snapshot(v.host) == u.snapshot
            && (u.txn.Some? ==> Recorded(v, u.tag) == u.txn.value.previous)
            && (u.txn.None? ==> Recorded(v, u.tag) == Recorded(w, u.tag))
            && (Live(v.host, u.tag) == u.original || (w.host.embedded && Deferred(w.host, u.tag) && u.original.Some?))
  {
    var u := w.at.undo;
    UndoneSteps(w.host, u, env);
    if u.txn.Some? {
      ReleasePutsBack(Onward(Onward(Onward(w, env), env), env).host, u.txn.value);
    }
  }

  lemma UndoneSteps(h: Host, u: Undo, env: Env)
    requires h.running && u.path == h.disk.path && u.snapshot.Some?
    ensures var v := Onward(Onward(Onward(World(h, Restoring(u)), env), env), env);
            && v.at == (if u.txn.Some? then Releasing(u.txn.value) else Idle)
            && v.host.ledger == h.ledger && Snapshot(v.host) == u.snapshot
            && (Live(v.host, u.tag) == u.original || (h.embedded && Deferred(h, u.tag) && u.original.Some?))
  {
    var h1 := WithConfig(h, u.path, u.snapshot, Done);
    assert Onward(World(h, Restoring(u)), env) == World(h1, Reverting(u, true)) && Snapshot(h1) == u.snapshot;
    Reverted(h1, u);
    var h2 := Revert(h1, u, FINE);
    assert Onward(World(h1, Reverting(u, true)), env) == World(h2, Resealing(u, true, true));
    assert Onward(World(h2, Resealing(u, true, true)), env) == Reseal(h2, u, true, true, FINE, env);
  }

  lemma Reverted(h: Host, u: Undo)
    requires h.running
    ensures var g := Revert(h, u, FINE);
            && RevertDone(h, u, FINE) && g == h.(runtime := g.runtime)
            && (Live(g, u.tag) == u.original || (h.embedded && Deferred(h, u.tag) && u.original.Some?))
  {
  }

  lemma ReleasePutsBack(h: Host, txn: Transaction)
    requires SoundLedger(h.ledger) && InPlace(h.ledger, txn)
    ensures At(Persisted(h.ledger, PutBack(h.ledger.states, txn), Done).sidecar, txn.tag) == txn.previous
  {
    PutBackAt(h.ledger, txn, txn.tag);
    var candidate := PutBack(h.ledger.states, txn);
    assert At(OnFile(candidate), txn.tag) == At(candidate, txn.tag);
  }

  // ----- a remove -----

  /** A remove by the owner that meets no failure ends with the id cancelled and no owner, and with
      no inbound of the tag in the file or in the runtime. */
  lemma RemoveCompletes(w: World, tag: string, id: string, env: Env)
    requires Safe(w) && w.at.Idle? && w.host.running && Quiescent(w.host) && Snapshot(w.host).Some?
    requires tag != "" && id != "" && w.host.disk.path != "" && Recorded(w, tag).owner in {"", id}
    ensures var begun := StartRemove(w.host, tag, id, Done);
            var v := Onward(Onward(Onward(Onward(begun, env), env), env), env);
            && v.at.Idle?
            && Recorded(v, tag) == State("", Recorded(w, tag).canceled + {id}, None)
            && Durable(v.host, tag).None? && Live(v.host, tag).None?
  {
    var begun := StartRemove(w.host, tag, id, Done);
    var removal := Removal(tag, id, w.host.disk.path, Snapshot(w.host), Original(Snapshot(w.host), tag));
    RemoveBegins(w.host, tag, id);
    assert begun == World(w.host.(ledger := begun.host.ledger), Detaching(removal));
    RemovedEverywhere(begun.host, removal, env);
    OwnerCleared(Onward(Onward(Onward(begun, env), env), env).host, removal, env);
  }

  lemma RemoveBegins(h: Host, tag: string, id: string)
    requires SoundLedger(h.ledger) && Quiescent(h) && tag != "" && id != "" && At(h.ledger.sidecar, tag).owner in {"", id}
    ensures RemovalOf(h.ledger, tag, id, Done).Proceed?
    ensures var l := AfterBeginRemove(h.ledger, tag, id, Done);
            && SoundLedger(l) && l.loaded
            && At(l.sidecar, tag) == At(l.states, tag) == State(At(h.ledger.sidecar, tag).owner, At(h.ledger.sidecar, tag).canceled + {id}, None)
  {
    LedgerAgrees(h.ledger, tag);
    NonePends(h, tag);
    CancelSafe(h.ledger, tag, id, Done);
    LedgerAgrees(AfterBeginRemove(h.ledger, tag, id, Done), tag);
  }

  lemma RemovedEverywhere(h: Host, r: Removal, env: Env)
    requires h.running && Snapshot(h).Some? && r.path == h.disk.path
    ensures var v := Onward(Onward(Onward(World(h, Detaching(r)), env), env), env);
            && v.at == Completing(r) && v.host.ledger == h.ledger
            && Durable(v.host, r.tag).None? && Live(v.host, r.tag).None?
  {
    var h1 := h.(runtime := h.runtime - {r.tag});
    var h2 := WithConfig(h1, r.path, Some(Snapshot(h).value - {r.tag}), Done);
    assert Onward(World(h, Detaching(r)), env) == World(h1, Erasing(r));
    assert Onward(World(h1, Erasing(r)), env) == World(h2, Unsealing(r)) && Snapshot(h2) == Some(Snapshot(h).value - {r.tag});
    assert Onward(World(h2, Unsealing(r)), env) == World(h2, Completing(r));
  }

  lemma OwnerCleared(h: Host, r: Removal, env: Env)
    requires SoundLedger(h.ledger) && h.ledger.loaded && r.tag != ""
    requires At(h.ledger.states, r.tag).owner in {"", r.id} && At(h.ledger.states, r.tag).pending.None?
    ensures var v := Onward(World(h, Completing(r)), env);
            && v.at.Idle? && v.host == h.(ledger := v.host.ledger)
            && At(v.host.ledger.sidecar, r.tag) == State("", At(h.ledger.sidecar, r.tag).canceled, None)
  {
    LedgerAgrees(h.ledger, r.tag);
    var candidate := Unowned(h.ledger.states, r.tag);
    assert At(OnFile(candidate), r.tag) == At(candidate, r.tag);
  }

  // ----- a recovery -----

  predicate AllFine(events: seq<Event>)
  {
    forall i :: 0 <= i < |events| ==> events[i].Step? && events[i].o == FINE
  }

  lemma RunOneMore(w: World, events: seq<Event>, e: Event, env: Env)
    ensures Run(w, events + [e], env) == Next(Run(w, events, env), e, env)
  {
    assert (events + [e])[..|events|] == events;
  }

  lemma {:induction false} RunFrom(w: World, e: Event, events: seq<Event>, env: Env)
    ensures Run(w, [e] + events, env) == Run(Next(w, e, env), events, env)
  {
    if events == [] {
      RunOneMore(w, [], e, env);
      assert [] + [e] == [e] + events;
    } else {
      var init, last := events[..|events| - 1], events[|events| - 1];
      RunFrom(w, e, init, env);
      assert [e] + events == ([e] + init) + [last];
      RunOneMore(w, [e] + init, last, env);
    }
  }

  /** Once every runtime is converged, what is left of a recovery meets no failure. */
  lemma ConvergedCompletes(w: World, env: Env) returns (events: seq<Event>)
    requires Quiet(w, env, ONCE) && w.at == Converging({})
    ensures AllFine(events)
    ensures var v := Run(w, events, env);
            v.at.Idle? && v.host.ledger.ready && NoPending(v.host.ledger.states)
  {
    assert Next(w, Fine(""), env) == World(w.host, Guarding);
    var rest := GuardedCompletes(w, env);
    events := [Fine("")] + rest;
    RunFrom(w, Fine(""), rest, env);
  }

  lemma GuardedCompletes(w: World, env: Env) returns (events: seq<Event>)
    requires Quiet(w, env, ONCE) && w.at == Converging({})
    ensures AllFine(events)
    ensures var v := Run(World(w.host, Guarding), events, env);
            v.at.Idle? && v.host.ledger.ready && NoPending(v.host.ledger.states)
  {
    var start := World(w.host, Guarding);
    var ready := World(w.host.(ledger := w.host.ledger.(ready := true)), Resolving);
    assert Next(start, Fine(""), env) == ready;
    var rest := ReadyCompletes(w, ready, env);
    events := [Fine("")] + rest;
    RunFrom(start, Fine(""), rest, env);
  }

  lemma ReadyCompletes(w: World, ready: World, env: Env) returns (events: seq<Event>)
    requires Quiet(w, env, ONCE) && w.at == Converging({})
    requires ready == World(w.host.(ledger := w.host.ledger.(ready := true)), Resolving)
    ensures AllFine(events)
    ensures var v := Run(ready, events, env);
            v.at.Idle? && v.host.ledger.ready && NoPending(v.host.ledger.states)
  {
    RecoveryRefusesTwins(w, env, ONCE);
    NothingPendsThen(ready.host.ledger, w.host.disk, env.digest, Done);
    events := [Fine("")];
    assert [Fine("")] + [] == events;
    RunFrom(ready, Fine(""), [], env);
  }

  /** From the convergence of the runtime on, a recovery that meets no failure ends at rest, ready,
      and with nothing pending. */
  lemma {:induction false} ConvergenceCompletes(w: World, env: Env) returns (events: seq<Event>)
    requires Quiet(w, env, ONCE) && w.at.Converging? && w.host.running
    ensures AllFine(events)
    ensures var v := Run(w, events, env);
            v.at.Idle? && v.host.ledger.ready && NoPending(v.host.ledger.states)
    decreases w.at.todo
  {
    if w.at.todo == {} {
      events := ConvergedCompletes(w, env);
    } else {
      var tag :| tag in w.at.todo;
      var v := Next(w, Fine(tag), env);
      QuietStep(w, Fine(tag), env, ONCE);
      OneConverges(w, tag, env);
      var rest := ConvergenceCompletes(v, env);
      events := [Fine(tag)] + rest;
      RunFrom(w, Fine(tag), rest, env);
    }
  }

  lemma OneConverges(w: World, tag: string, env: Env)
    requires Quiet(w, env, ONCE) && w.at.Converging? && w.host.running && tag in w.at.todo
    ensures var v := Next(w, Fine(tag), env); v.at == Converging(w.at.todo - {tag}) && v.host.running
  {
    LedgerAgrees(w.host.ledger, tag);
    if Pends(w.host, tag) {
      InUseDecides(w.host, tag, env);
    }
  }

  /** Wherever a quiet run was cut short, a recovery while Xray runs and nothing fails decides every
      pending add, if the file has no pending tag twice; if it has, the recovery stops at once and
      every record stays. */
  lemma RecoveryCompletes(w: World, env: Env, care: Care) returns (events: seq<Event>)
    requires Quiet(w, env, care) && TellsApart(care) && w.at.Idle? && w.host.running
    ensures AllFine(events)
    ensures var v := Run(w, [Recovering] + events, env);
            if PendsOnce(w.host) then v.at.Idle? && v.host.ledger.ready && NoPending(v.host.ledger.states)
            else v == World(w.host.(ledger := Loaded(w.host.ledger).(ready := false)), Idle)
  {
    var v := Next(w, Recovering, env);
    RecoveryRefusesTwins(w, env, care);
    if v.at.Idle? {
      events := [];
      RunFrom(w, Recovering, [], env);
      RefusedAtOnce(w, env);
    } else {
      assert Quiet(w, env, ONCE);
      QuietStep(w, Recovering, env, ONCE);
      events := ConvergenceCompletes(v, env);
      RunFrom(w, Recovering, events, env);
    }
  }

  /** A recovery that is back at rest at once had nothing to do, or refused. */
  lemma RefusedAtOnce(w: World, env: Env)
    requires SoundLedger(w.host.ledger) && Recover(w.host, env).at.Idle?
    requires AllDecided(Loaded(w.host.ledger).states, w.host.disk, env.digest) <==> PendsOnce(w.host)
    ensures var v := Recover(w.host, env);
            if PendsOnce(w.host) then v.host.ledger.ready && NoPending(v.host.ledger.states)
            else v.host == w.host.(ledger := Loaded(w.host.ledger).(ready := false))
  {
  }
}

/** What every run of the machine keeps, whatever fails and wherever it crashes. */
module FenceSafety {
  import opened Json
  import opened InboundConfig
  import opened Fences
  import opened FenceMachine
  import opened Writes

  // ----- the invariant -----

  /** The record of the transaction is the only one, over the state that it remembers. */
  ghost predicate InPlace(l: Ledger, txn: Transaction)
  {
    && l.loaded
    && At(l.states, txn.tag).pending.Some? && At(l.states, txn.tag).pending.value.owner == txn.owner
    && At(l.states, txn.tag).(pending := None) == txn.previous
    && (!txn.previousExists ==> txn.previous == NOTHING)
    && forall tag: string :: tag != txn.tag ==> At(l.states, tag).pending.None?
  }

  ghost predicate TransactionHolds(h: Host, txn: Option<Transaction>, tag: string)
  {
    if txn.None? then Quiescent(h)
    else InPlace(h.ledger, txn.value) && txn.value.tag == tag && h.authorized
  }

  ghost predicate AddHolds(h: Host, a: Add)
  {
    && TransactionHolds(h, a.txn, a.tag)
    && (a.txn.None? ==> At(h.ledger.states, a.tag) == NOTHING)
  }

  ghost predicate UndoHolds(h: Host, u: Undo)
  {
    && TransactionHolds(h, u.txn, u.tag)
    && (u.isAdd && u.txn.None? ==> At(h.ledger.states, u.tag) == NOTHING)
    && (!u.isAdd ==> u.txn.None?)
  }

  /** A remove that has begun names the owner, or there is none. */
  ghost predicate RemovalHolds(h: Host, r: Removal)
  {
    var owner := At(h.ledger.states, r.tag).owner;
    Quiescent(h) && (owner == "" || owner == r.id)
  }

  ghost predicate PointHolds(h: Host, at: Point)
  {
    match at
    case Idle => true
    case Unreserving(txn) => TransactionHolds(h, Some(txn), txn.tag)
    case Persisting(a) => AddHolds(h, a)
    case Sealing(a) => AddHolds(h, a)
    case Activating(a) => AddHolds(h, a)
    case Committing(a) => AddHolds(h, a)
    case Restoring(u) => UndoHolds(h, u)
    case Reverting(u, restored) => UndoHolds(h, u)
    case Resealing(u, restored, reverted) => UndoHolds(h, u)
    case Releasing(txn) => TransactionHolds(h, Some(txn), txn.tag)
    case Converging(todo) => h.ledger.loaded && !h.ledger.ready
    case Guarding => h.ledger.loaded && !h.ledger.ready
    case Resolving => h.ledger.loaded
    case Detaching(r) => RemovalHolds(h, r)
    case Erasing(r) => RemovalHolds(h, r)
    case Unsealing(r) => RemovalHolds(h, r)
    case Completing(r) => RemovalHolds(h, r)
  }

  ghost predicate Safe(w: World)
  {
    SoundLedger(w.host.ledger) && PointHolds(w.host, w.at)
  }

  // ----- what each write makes of a tag -----

  lemma PersistedSound(l: Ledger, candidate: States, w: Write)
    requires SoundLedger(l) && l.loaded && Sound(candidate)
    ensures SoundLedger(Persisted(l, candidate, w)) && Persisted(l, candidate, w).loaded
    ensures forall tag: string :: At(Persisted(l, candidate, w).sidecar, tag)
                               == if Applied(w) then At(candidate, tag) else At(l.sidecar, tag)
  {
    assert forall tag: string :: At(OnFile(candidate), tag) == At(candidate, tag);
  }

  lemma PutBackAt(l: Ledger, txn: Transaction, tag: string)
    requires InPlace(l, txn)
    ensures At(PutBack(l.states, txn), tag) == At(l.states, tag).(pending := None)
  {
  }

  /** How a step may change what is recorded about a tag. */
  predicate Changes(before: State, after: State)
  {
    && before.canceled <= after.canceled
    && (after.owner != before.owner ==>
          after.owner == "" || (before.pending.Some? && after.owner == before.pending.value.owner))
  }

  ghost predicate LedgerChanges(l: Ledger, m: Ledger)
  {
    forall tag: string :: Changes(At(l.sidecar, tag), At(m.sidecar, tag))
  }

  lemma PutBackSafe(l: Ledger, txn: Transaction, w: Write)
    requires SoundLedger(l) && InPlace(l, txn)
    ensures SoundLedger(Persisted(l, PutBack(l.states, txn), w)) && LedgerChanges(l, Persisted(l, PutBack(l.states, txn), w))
    ensures forall tag: string :: At(Persisted(l, PutBack(l.states, txn), w).sidecar, tag).owner == At(l.sidecar, tag).owner
  {
    var candidate := PutBack(l.states, txn);
    forall tag: string ensures At(candidate, tag) == At(l.sidecar, tag).(pending := None) {
      PutBackAt(l, txn, tag);
    }
    PersistedSound(l, candidate, w);
  }

  lemma ReserveSafe(l: Ledger, tag: string, pending: Pending, w: Write)
    requires SoundLedger(l) && l.loaded && NoPending(l.states)
    requires pending.previousOwner == At(l.states, tag).owner
    requires pending.owner != "" && pending.owner !in At(l.states, tag).canceled
    ensures var txn := Transaction(tag, pending.owner, At(l.states, tag), tag in l.states);
            var m := Persisted(l, l.states[tag := At(l.states, tag).(pending := Some(pending))], w);
            && SoundLedger(m) && LedgerChanges(l, m) && (Applied(w) ==> InPlace(m, txn))
            && forall t: string :: At(m.sidecar, t).owner == At(l.sidecar, t).owner
  {
    var candidate := l.states[tag := At(l.states, tag).(pending := Some(pending))];
    forall t: string
      ensures At(l.states, t) == At(l.sidecar, t) && At(l.states, t).pending.None?
      ensures At(candidate, t) == if t == tag then At(l.sidecar, t).(pending := Some(pending)) else At(l.sidecar, t)
    {
      LedgerAgrees(l, t);
    }
    PersistedSound(l, candidate, w);
  }

  lemma CommitSafe(l: Ledger, txn: Transaction, disk: Disk, digest: Fields -> string, w: Write)
    requires SoundLedger(l) && InPlace(l, txn)
    ensures var m := AfterCommit(l, txn, disk, digest, w);
            && SoundLedger(m) && LedgerChanges(l, m)
            && forall tag: string :: At(m.sidecar, tag).owner == At(l.sidecar, tag).owner
                                  || (tag == txn.tag && At(m.sidecar, tag).owner == txn.owner)
  {
    if Committable(l, txn, disk, digest) {
      var candidate := Committed(l.states, txn);
      assert forall tag: string :: tag != txn.tag ==> At(candidate, tag) == At(l.states, tag);
      assert forall tag: string :: At(l.states, tag) == At(l.sidecar, tag);
      PersistedSound(l, candidate, w);
    }
  }

  lemma SettledSound(tag: string, st: State, disk: Disk, digest: Fields -> string)
    requires SoundState(st)
    ensures var after := Settled(tag, st, disk, digest);
            SoundState(after) && Changes(st, after) && (after.owner == st.owner || RecoveredBy(tag, st, after, disk, digest))
  {
  }

  lemma ResolveSafe(l: Ledger, disk: Disk, digest: Fields -> string, w: Write)
    requires SoundLedger(l) && l.loaded
    ensures var m := AfterResolve(l, disk, digest, w);
            && SoundLedger(m) && LedgerChanges(l, m) && m.loaded
            && forall tag: string :: At(m.sidecar, tag).owner == At(l.sidecar, tag).owner
                                  || RecoveredBy(tag, At(l.sidecar, tag), At(m.sidecar, tag), disk, digest)
  {
    if !NoPending(l.states) && AllDecided(l.states, disk, digest) {
      var candidate := Resolved(l.states, disk, digest);
      forall tag: string
        ensures var st := At(candidate, tag);
                SoundState(st) && Changes(At(l.sidecar, tag), st)
                && (st.owner == At(l.sidecar, tag).owner || RecoveredBy(tag, At(l.sidecar, tag), st, disk, digest))
      {
        ResolvedAt(l.states, disk, digest, tag);
        LedgerAgrees(l, tag);
        SettledSound(tag, At(l.sidecar, tag), disk, digest);
      }
      PersistedSound(l, candidate, w);
    }
  }

  lemma ResolveRecords(l: Ledger, disk: Disk, digest: Fields -> string, w: Write, tag: string)
    requires SoundLedger(l) && l.loaded
    ensures At(AfterResolve(l, disk, digest, w).sidecar, tag) ==
            if AllDecided(l.states, disk, digest) && !NoPending(l.states) && Applied(w)
            then Settled(tag, At(l.sidecar, tag), disk, digest) else At(l.sidecar, tag)
  {
    ResolvedAt(l.states, disk, digest, tag);
    LedgerAgrees(l, tag);
    var resolved := Resolved(l.states, disk, digest);
    assert At(OnFile(resolved), tag) == At(resolved, tag);
  }

  lemma CancelSafe(l: Ledger, tag: string, id: string, w: Write)
    requires SoundLedger(l) && l.loaded && NoPending(l.states)
    ensures var m := AfterBeginRemove(l, tag, id, w);
            && SoundLedger(m) && LedgerChanges(l, m) && m.loaded && NoPending(m.states)
            && (forall t: string :: At(m.sidecar, t).owner == At(l.sidecar, t).owner)
            && (forall t: string :: At(m.states, t).owner == At(l.states, t).owner)
  {
    if tag != "" && id != "" {
      var candidate := Cancelled(l.states, tag, id);
      assert forall t: string :: t != tag ==> At(candidate, t) == At(l.states, t);
      assert forall t: string :: At(l.states, t) == At(l.sidecar, t) && At(l.states, t).pending.None?;
      PersistedSound(l, candidate, w);
    }
  }

  lemma CompleteSafe(h: Host, r: Removal, w: Write)
    requires SoundLedger(h.ledger) && RemovalHolds(h, r)
    ensures var m := AfterCompleteRemoval(h.ledger, r.tag, r.id, w);
            && SoundLedger(m) && LedgerChanges(h.ledger, m)
            && forall t: string :: At(m.sidecar, t).owner == At(h.ledger.sidecar, t).owner
                  || (t == r.tag && r.id == At(h.ledger.sidecar, t).owner && At(m.sidecar, t).owner == "")
  {
    var l := h.ledger;
    var candidate := Unowned(l.states, r.tag);
    assert forall t: string :: t != r.tag ==> At(candidate, t) == At(l.states, t);
    assert forall t: string :: At(l.states, t) == At(l.sidecar, t) && At(l.states, t).pending.None?;
    PersistedSound(l, candidate, w);
  }

  /** A pending add that a recovery decides for the generation that the files hold. */
  predicate RecoveredBy(tag: string, before: State, after: State, disk: Disk, digest: Fields -> string)
  {
    && before.pending.Some? && after.owner == before.pending.value.owner
    && ResolutionOf(tag, before.pending.value, disk, digest).Intended?
  }

  // ----- every step -----

  ghost predicate CommittedBy(w: World, e: Event, tag: string, after: State)
  {
    && w.at.Committing? && e.Step? && w.at.add.txn.Some?
    && w.at.add.txn.value.tag == tag && w.at.add.txn.value.owner == after.owner
  }

  ghost predicate RemovedBy(w: World, e: Event, tag: string, before: State, after: State)
  {
    && w.at.Completing? && e.Step?
    && w.at.removal.tag == tag && w.at.removal.id == before.owner && after.owner == ""
  }

  /** The three ways in which a tag gets another owner. */
  ghost predicate OwnerMoves(w: World, e: Event, tag: string, before: State, after: State, env: Env)
  {
    || CommittedBy(w, e, tag, after)
    || ((w.at.Resolving? || (w.at.Idle? && e.Ensuring?)) && RecoveredBy(tag, before, after, w.host.disk, env.digest))
    || RemovedBy(w, e, tag, before, after)
  }

  ghost predicate OwnersMove(w: World, e: Event, v: World, env: Env)
  {
    forall tag: string ::
      var before, after := At(w.host.ledger.sidecar, tag), At(v.host.ledger.sidecar, tag);
      after.owner == before.owner || OwnerMoves(w, e, tag, before, after, env)
  }

  ghost predicate Sane(w: World, e: Event, v: World, env: Env)
  {
    Safe(v) && LedgerChanges(w.host.ledger, v.host.ledger) && OwnersMove(w, e, v, env)
  }

  /** A step that leaves the ledger alone changes no tag. */
  lemma SameLedger(w: World, e: Event, v: World, env: Env)
    requires v.host.ledger.sidecar == w.host.ledger.sidecar && Safe(v)
    ensures Sane(w, e, v, env)
  {
  }

  lemma LoadedSafe(h: Host)
    requires SoundLedger(h.ledger)
    ensures SoundLedger(Loaded(h.ledger)) && Loaded(h.ledger).loaded && Loaded(h.ledger).sidecar == h.ledger.sidecar
  {
  }

  ghost predicate SafeSame(h: Host, v: World)
  {
    Safe(v) && v.host.ledger.sidecar == h.ledger.sidecar
  }

  lemma RecoverSafe(h: Host, env: Env)
    requires SoundLedger(h.ledger)
    ensures SafeSame(h, Recover(h, env))
  {
    LoadedSafe(h);
  }

  /** What holds at a point depends on the ledger and the authorization only. */
  predicate SameAuthority(h: Host, g: Host)
  {
    g.ledger == h.ledger && g.authorized == h.authorized
  }

  lemma SafeAt(h: Host, v: World)
    requires SoundLedger(h.ledger) && SameAuthority(h, v.host) && PointHolds(h, v.at)
    ensures SafeSame(h, v)
  {
  }

  lemma UndoOfAddHolds(h: Host, a: Add)
    requires AddHolds(h, a)
    ensures PointHolds(h, Restoring(UndoOfAdd(a)))
  {
  }

  lemma PersistSafe(h: Host, a: Add, o: Outcome, env: Env)
    requires SoundLedger(h.ledger) && AddHolds(h, a)
    ensures SafeSame(h, Persist(h, a, o, env))
  {
    UndoOfAddHolds(h, a);
    var v := Persist(h, a, o, env);
    assert SameAuthority(h, v.host) && (v.at == Restoring(UndoOfAdd(a)) || (v.at.Sealing? && v.at.add == a.(built := v.at.add.built)));
    SafeAt(h, v);
  }

  lemma ActivateSafe(h: Host, a: Add, o: Outcome)
    requires SoundLedger(h.ledger) && AddHolds(h, a)
    ensures SafeSame(h, Activate(h, a, o))
  {
    UndoOfAddHolds(h, a);
    var v := Activate(h, a, o);
    assert SameAuthority(h, v.host) && (v.at == Committing(a) || v.at == Restoring(UndoOfAdd(a)));
    SafeAt(h, v);
  }

  lemma SealSafe(h: Host, a: Add, o: Outcome)
    requires SoundLedger(h.ledger) && AddHolds(h, a)
    ensures SafeSame(h, World(h, if o.ok then Activating(a) else Restoring(UndoOfAdd(a))))
  {
    UndoOfAddHolds(h, a);
    SafeAt(h, World(h, if o.ok then Activating(a) else Restoring(UndoOfAdd(a))));
  }

  lemma ResealSafe(h: Host, u: Undo, restored: bool, reverted: bool, o: Outcome, env: Env)
    requires SoundLedger(h.ledger) && UndoHolds(h, u)
    ensures SafeSame(h, Reseal(h, u, restored, reverted, o, env))
  {
    if restored && reverted && o.ok {
      SafeAt(h, World(h, if u.txn.Some? then Releasing(u.txn.value) else Idle));
    } else {
      RecoverSafe(h, env);
    }
  }

  lemma RestoreSafe(h: Host, u: Undo, w: Write)
    requires SoundLedger(h.ledger) && UndoHolds(h, u)
    ensures SafeSame(h, World(WithConfig(h, u.path, u.snapshot, w), Reverting(u, w.Done?)))
  {
    SafeAt(h, World(WithConfig(h, u.path, u.snapshot, w), Reverting(u, w.Done?)));
  }

  lemma RevertSafe(h: Host, u: Undo, restored: bool, o: Outcome)
    requires SoundLedger(h.ledger) && UndoHolds(h, u)
    ensures SafeSame(h, World(Revert(h, u, o), Resealing(u, restored, RevertDone(h, u, o))))
  {
    var g, done := Revert(h, u, o), RevertDone(h, u, o);
    assert SameAuthority(h, g);
    SafeAt(h, World(g, Resealing(u, restored, done)));
  }

  lemma ConvergeSafe(h: Host, todo: set<string>, tag: string, o: Outcome, env: Env)
    requires SoundLedger(h.ledger) && h.ledger.loaded && !h.ledger.ready
    ensures SafeSame(h, Converge(h, todo, tag, o, env))
  {
    var v := Converge(h, todo, tag, o, env);
    assert SameAuthority(h, v.host) && (v.at.Idle? || v.at.Guarding? || v.at.Converging?);
    SafeAt(h, v);
  }

  lemma RemovalSafe(h: Host, r: Removal, o: Outcome)
    requires SoundLedger(h.ledger) && RemovalHolds(h, r)
    ensures SafeSame(h, World(Removed(h, r.tag, o), if RemoveDone(h, o) then Erasing(r) else Idle))
    ensures SafeSame(h, World(h, if o.ok then Completing(r) else Restoring(UndoOfRemoval(r))))
  {
    assert PointHolds(h, Restoring(UndoOfRemoval(r)));
    SafeAt(h, World(Removed(h, r.tag, o), if RemoveDone(h, o) then Erasing(r) else Idle));
    SafeAt(h, World(h, if o.ok then Completing(r) else Restoring(UndoOfRemoval(r))));
  }

  lemma EraseSafe(h: Host, r: Removal, o: Outcome)
    requires SoundLedger(h.ledger) && RemovalHolds(h, r)
    ensures SafeSame(h, Erase(h, r, o))
  {
    assert PointHolds(h, Restoring(UndoOfRemoval(r)));
    var v := Erase(h, r, o);
    assert SameAuthority(h, v.host) && (v.at == Unsealing(r) || v.at == Restoring(UndoOfRemoval(r)));
    SafeAt(h, v);
  }

  /** A step at which the sidecar is not written. */
  lemma QuietStepSafe(w: World, tag: string, o: Outcome, env: Env)
    requires Safe(w)
    requires !w.at.Unreserving? && !w.at.Committing? && !w.at.Releasing? && !w.at.Resolving? && !w.at.Completing?
    ensures SafeSame(w.host, Go(w.host, w.at, tag, o, env))
  {
    match w.at
    case Idle =>
    case Persisting(a) => PersistSafe(w.host, a, o, env);
    case Sealing(a) => SealSafe(w.host, a, o);
    case Activating(a) => ActivateSafe(w.host, a, o);
    case Restoring(u) => RestoreSafe(w.host, u, o.write);
    case Reverting(u, restored) => RevertSafe(w.host, u, restored, o);
    case Resealing(u, restored, reverted) => ResealSafe(w.host, u, restored, reverted, o, env);
    case Converging(todo) => ConvergeSafe(w.host, todo, tag, o, env);
    case Guarding =>
    case Detaching(r) => RemovalSafe(w.host, r, o);
    case Erasing(r) => EraseSafe(w.host, r, o);
    case Unsealing(r) => RemovalSafe(w.host, r, o);
  }

  lemma CommitStepSafe(w: World, e: Event, env: Env)
    requires Safe(w) && e.Step? && w.at.Committing?
    ensures Sane(w, e, Commit(w.host, w.at.add, e.o, env), env)
  {
    if w.at.add.txn.None? {
      SameLedger(w, e, Commit(w.host, w.at.add, e.o, env), env);
    } else {
      CommitSafe(w.host.ledger, w.at.add.txn.value, w.host.disk, env.digest, e.o.write);
    }
  }

  /** A step at which the sidecar is written. */
  lemma WriteStepSafe(w: World, e: Event, env: Env)
    requires Safe(w) && e.Step?
    requires w.at.Unreserving? || w.at.Committing? || w.at.Releasing? || w.at.Resolving? || w.at.Completing?
    ensures Sane(w, e, Go(w.host, w.at, e.tag, e.o, env), env)
  {
    match w.at
    case Unreserving(txn) => PutBackSafe(w.host.ledger, txn, e.o.write);
    case Releasing(txn) => PutBackSafe(w.host.ledger, txn, e.o.write);
    case Committing(_) => CommitStepSafe(w, e, env);
    case Resolving => ResolveSafe(w.host.ledger, w.host.disk, env.digest, e.o.write);
    case Completing(r) => CompleteSafe(w.host, r, e.o.write);
  }

  lemma StartAddSafe(w: World, e: Event, env: Env)
    requires Safe(w) && w.at.Idle? && e.Adding?
    ensures Sane(w, e, StartAdd(w.host, e.req, e.w, env), env)
  {
    var h := w.host;
    if Turned(h, e.req, env) || e.req.mutationId == "" {
      SameLedger(w, e, StartAdd(h, e.req, e.w, env), env);
    } else {
      var req := PreparedRequest(h, e.req, env);
      var pending := PendingOf(At(h.ledger.states, req.tag), req.tag in h.ledger.states, req, h.disk.path,
                               AddOf(h, e.req, env).original, env.digest);
      ReserveSafe(h.ledger, req.tag, pending, e.w);
    }
  }

  lemma StartRemoveSafe(w: World, e: Event, env: Env)
    requires Safe(w) && w.at.Idle? && e.Removing? && Quiescent(w.host)
    ensures Sane(w, e, StartRemove(w.host, e.removed, e.id, e.w), env)
  {
    CancelSafe(w.host.ledger, e.removed, e.id, e.w);
  }

  lemma EnsureSafe(w: World, e: Event, env: Env)
    requires Safe(w) && w.at.Idle? && e.Ensuring?
    ensures Sane(w, e, World(w.host.(ledger := AfterEnsure(w.host.ledger, w.host.disk, env.digest, e.w)), Idle), env)
  {
    LoadedSafe(w.host);
    if Loaded(w.host.ledger).ready {
      ResolveSafe(Loaded(w.host.ledger), w.host.disk, env.digest, e.w);
    }
  }

  /** Every step keeps the invariant, forgets no cancellation and moves owners in the known ways only. */
  lemma EveryStepSane(w: World, e: Event, env: Env)
    requires Safe(w)
    ensures Sane(w, e, Next(w, e, env), env)
  {
    if !e.Step? {
      RequestSafe(w, e, env);
    } else if w.at.Unreserving? || w.at.Committing? || w.at.Releasing? || w.at.Resolving? || w.at.Completing? {
      WriteStepSafe(w, e, env);
    } else {
      QuietStepSafe(w, e.tag, e.o, env);
      SameLedger(w, e, Go(w.host, w.at, e.tag, e.o, env), env);
    }
  }

  lemma RequestSafe(w: World, e: Event, env: Env)
    requires Safe(w) && !e.Step?
    ensures Sane(w, e, Next(w, e, env), env)
  {
    if e.Outside? || e.Crashing? || !w.at.Idle? {
      var v := Next(w, e, env);
      assert e.Crashing? || (SameAuthority(w.host, v.host) && v.at == w.at);
      if !e.Crashing? {
        SafeAt(w.host, v);
      }
      SameLedger(w, e, v, env);
    } else {
      BeginSafe(w, e, env);
    }
  }

  lemma BeginSafe(w: World, e: Event, env: Env)
    requires Safe(w) && w.at.Idle? && !e.Step? && !e.Outside? && !e.Crashing?
    ensures Sane(w, e, Begin(w.host, e, env), env)
  {
    LoadedSafe(w.host);
    match e
    case Adding(_, _) => StartAddSafe(w, e, env);
    case Removing(_, _, _) =>
      if Quiescent(w.host) {
        StartRemoveSafe(w, e, env);
      } else {
        SameLedger(w, e, w, env);
      }
    case Ensuring(_) => EnsureSafe(w, e, env);
    case Recovering =>
      RecoverSafe(w.host, env);
      SameLedger(w, e, Recover(w.host, env), env);
    case Granting =>
      RecoverSafe(w.host.(authorized := true), env);
      SameLedger(w, e, Recover(w.host.(authorized := true), env), env);
    case Starting(_, _, _) => StartSafe(w, e, env);
    case _ => OtherSafe(w, e, env);
  }

  lemma StartSafe(w: World, e: Event, env: Env)
    requires Safe(w) && w.at.Idle? && e.Starting?
    ensures Sane(w, e, Start(w.host, e, env), env)
  {
    LoadedSafe(w.host);
    var g := Started(w.host, e.withheld, e.up);
    assert g.ledger == w.host.ledger || g.ledger == Loaded(w.host.ledger);
    RecoverSafe(g, env);
    SameLedger(w, e, Start(w.host, e, env), env);
  }

  lemma OtherSafe(w: World, e: Event, env: Env)
    requires SoundLedger(w.host.ledger) && w.at.Idle? && (e.Editing? || e.Stopping? || e.Denying? || e.Reenabling?)
    ensures Sane(w, e, Begin(w.host, e, env), env)
  {
    LoadedSafe(w.host);
    var v := Begin(w.host, e, env);
    assert v.at.Idle? && (v.host.ledger == w.host.ledger || v.host.ledger == Loaded(w.host.ledger));
    SameLedger(w, e, v, env);
  }
}

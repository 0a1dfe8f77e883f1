/** Runs in which nobody else edits the configuration file: recovery can always decide, and the
    runtime agrees with the file about every pending tag that is ready to be resolved. */
module FenceQuiet {
  import opened Json
  import opened InboundConfig
  import opened Fences
  import opened FenceMachine
  import opened FenceSafety
  import opened Writes

  // ----- what the file holds -----

  /** The upserted tag is left once, with the clients of its later copies folded in; the first copy of
      another tag stays the first. */
  lemma UpsertHolds(c: Config, tag: string, inbound: Fields, env: Env)
    ensures Copies(Upsert(c, tag, inbound, env), tag) == [Prepared(c, tag, inbound, env)]
    ensures First(Upsert(c, tag, inbound, env), tag) == Some(Prepared(c, tag, inbound, env))
  {
  }

  /** Preparing an inbound a second time changes nothing exactly when the clients it takes over are identified. */
  lemma PreparedTwice(c: Config, tag: string, inbound: Fields, env: Env)
    ensures Prepared(c, tag, Prepared(c, tag, inbound, env), env) == Prepared(c, tag, inbound, env)
        <==> CopiesIdentified(inbound, Later(c, tag), env.sprint)
  {
    FoldTwice(inbound, Later(c, tag), env.sprint);
  }

  predicate Single(config: Option<Config>, tag: string)
  {
    config.Some? ==> |Copies(config.value, tag)| <= 1
  }

  function Durable(h: Host, tag: string): Option<Fields>
  {
    Original(Snapshot(h), tag)
  }

  /** The runtime has what the file says, while it runs at all. */
  predicate Agreed(h: Host, tag: string)
  {
    h.running ==> Live(h, tag) == Durable(h, tag)
  }

  predicate Pends(h: Host, tag: string)
  {
    At(h.ledger.sidecar, tag).pending.Some?
  }

  function RecordOf(h: Host, tag: string): Pending
    requires Pends(h, tag)
  {
    At(h.ledger.sidecar, tag).pending.value
  }

  predicate Fits(p: Pending, inbound: Option<Fields>, digest: Fields -> string)
  {
    !Decision(Actual(inbound), p, digest).Refused?
  }

  predicate FitsOld(p: Pending, inbound: Option<Fields>, digest: Fields -> string)
  {
    inbound.Some? == p.previousPresent && (inbound.Some? ==> digest(inbound.value) == p.previousDigest)
  }

  predicate FitsNew(p: Pending, inbound: Fields, digest: Fields -> string)
  {
    digest(inbound) == p.intendedDigest
  }

  /** What is asked of a run. agree: what its calls count as done is done, and an embedded Xray is given
      only adds whose clients, taken over from later copies of the tag, can be told apart. told: this is
      so of every add. once: each add is of a tag that the file has at most once. */
  datatype Care = Care(agree: bool, told: bool, once: bool)

  predicate TellsApart(care: Care)
  {
    care.told || care.once
  }

  predicate QuietFiles(h: Host)
  {
    Snapshot(h).Some?
  }

  /** The record names the file in use, which holds one of its two generations once clients are told
      apart, and the tag at most once in runs whose adds keep to such tags. */
  predicate RecordFits(h: Host, tag: string, env: Env, care: Care)
    requires Pends(h, tag)
  {
    && RecordOf(h, tag).configPath == h.disk.path
    && (TellsApart(care) ==> Fits(RecordOf(h, tag), Durable(h, tag), env.digest))
    && (care.once ==> Single(Snapshot(h), tag))
  }

  ghost predicate RecordsFit(h: Host, env: Env, care: Care)
  {
    forall tag: string :: Pends(h, tag) ==> RecordFits(h, tag, env, care)
  }

  // ----- the invariant -----

  ghost predicate SnapshotFits(h: Host, txn: Option<Transaction>, tag: string, path: string, snapshot: Option<Config>,
                               original: Option<Fields>, env: Env, care: Care)
  {
    && path == h.disk.path && snapshot.Some? && original == First(snapshot.value, tag)
    && (txn.Some? ==> Pends(h, tag) && FitsOld(RecordOf(h, tag), original, env.digest) && (care.once ==> Single(snapshot, tag)))
  }

  ghost predicate AddFits(h: Host, a: Add, written: bool, env: Env, care: Care)
  {
    && SnapshotFits(h, a.txn, a.tag, a.path, a.snapshot, a.original, env, care)
    && (a.txn.Some? ==>
          && FitsNew(RecordOf(h, a.tag), a.inbound, env.digest)
          && ((care.agree && h.embedded) || TellsApart(care) ==> Prepared(a.snapshot.value, a.tag, a.inbound, env) == a.inbound)
          && (care.agree && written ==> Durable(h, a.tag) == Some(a.built))
          && (TellsApart(care) || !written ==> a.built == a.inbound))
    && (!written ==> Snapshot(h) == a.snapshot)
  }

  ghost predicate UndoFits(h: Host, u: Undo, restored: bool, env: Env, care: Care)
  {
    && SnapshotFits(h, u.txn, u.tag, u.path, u.snapshot, u.original, env, care)
    && (restored ==> Snapshot(h) == u.snapshot)
  }

  ghost predicate PendingAgreed(h: Host, except: set<string>, care: Care)
  {
    care.agree && h.authorized ==> forall tag: string :: Pends(h, tag) && tag !in except ==> Agreed(h, tag)
  }

  predicate RemovalFiles(h: Host, r: Removal)
  {
    r.path == h.disk.path && r.snapshot.Some? && r.original == First(r.snapshot.value, r.tag)
  }

  ghost predicate PointFits(h: Host, at: Point, env: Env, care: Care)
  {
    match at
    case Idle => h.ledger.ready ==> PendingAgreed(h, {}, care)
    case Unreserving(txn) => true
    case Persisting(a) => AddFits(h, a, false, env, care)
    case Sealing(a) => AddFits(h, a, true, env, care)
    case Activating(a) => AddFits(h, a, true, env, care)
    case Committing(a) => AddFits(h, a, true, env, care) && (care.agree && a.txn.Some? ==> Agreed(h, a.tag))
    case Restoring(u) => UndoFits(h, u, false, env, care)
    case Reverting(u, restored) => UndoFits(h, u, restored, env, care)
    case Resealing(u, restored, reverted) =>
      UndoFits(h, u, restored, env, care) && (care.agree && reverted && h.authorized && h.running ==> Live(h, u.tag) == u.original)
    case Releasing(txn) => care.agree ==> Agreed(h, txn.tag)
    case Converging(todo) => PendingAgreed(h, todo, care)
    case Guarding => PendingAgreed(h, {}, care)
    case Resolving => PendingAgreed(h, {}, care)
    case Detaching(r) => RemovalFiles(h, r)
    case Erasing(r) => RemovalFiles(h, r)
    case Unsealing(r) => RemovalFiles(h, r)
    case Completing(r) => true
  }

  ghost predicate Fitting(w: World, env: Env, care: Care)
  {
    QuietFiles(w.host) && RecordsFit(w.host, env, care) && PointFits(w.host, w.at, env, care)
  }

  ghost predicate Quiet(w: World, env: Env, care: Care)
  {
    Safe(w) && Fitting(w, env, care)
  }

  /** A call that fails with an error like "not found" counts as done; this is whether it is not. */
  predicate Mistaken(h: Host, tag: string, wanted: Option<Fields>, o: Outcome)
  {
    && h.authorized && h.running && !o.ok && o.missing
    && (if wanted.None? then !o.left.Gone? && tag in h.runtime
        else o.left.Gone? || (o.left.AsBefore? && Live(h, tag) != wanted))
  }

  /** What a quiet run leaves out: edits from outside; adds that take over clients which cannot be told
      apart; a reservation that cannot be taken back, about whose tag the runtime disagrees; and calls
      that count as done and are not. */
  ghost predicate QuietEvent(w: World, e: Event, env: Env, care: Care)
  {
    match e
    case Outside(_) => false
    case Adding(req, _) => req.mutationId != "" ==> QuietAdd(w.host, req, env, care)
    case Step(pick, o) => care.agree ==> QuietOutcome(w.host, w.at, pick, o)
    case _ => true
  }

  predicate QuietOutcome(h: Host, at: Point, pick: string, o: Outcome)
  {
    match at
    case Unreserving(txn) => h.ledger.ready && o.write.FailedBefore? ==> Agreed(h, txn.tag)
    case Reverting(u, _) => !(h.embedded && u.original.Some?) ==> !Mistaken(h, u.tag, u.original, o)
    case Converging(todo) => pick in todo && Pends(h, pick) && Durable(h, pick).None? ==> !Mistaken(h, pick, None, o)
    case _ => true
  }

  ghost predicate QuietAdd(h: Host, req: Request, env: Env, care: Care)
  {
    && (Snapshot(h).Some? && ((care.agree && h.embedded) || care.told) ==>
          CopiesIdentified(req.inbound, Later(Snapshot(h).value, req.tag), env.sprint))
    && (care.once ==> Single(Snapshot(h), req.tag))
  }

  // ----- an add -----

  lemma OnlyItsTag(h: Host, txn: Transaction, tag: string)
    requires SoundLedger(h.ledger) && InPlace(h.ledger, txn)
    ensures Pends(h, tag) <==> tag == txn.tag
  {
    LedgerAgrees(h.ledger, tag);
  }

  lemma NonePends(h: Host, tag: string)
    requires SoundLedger(h.ledger) && Quiescent(h)
    ensures !Pends(h, tag)
  {
    LedgerAgrees(h.ledger, tag);
  }

  /** Whether the records fit depends on the file and the sidecar only. */
  lemma RecordsStay(h: Host, g: Host, env: Env, care: Care)
    requires QuietFiles(h) && RecordsFit(h, env, care) && g.disk == h.disk && g.ledger.sidecar == h.ledger.sidecar
    ensures QuietFiles(g) && RecordsFit(g, env, care)
  {
    assert forall tag: string :: Pends(g, tag) ==> Pends(h, tag) && RecordOf(g, tag) == RecordOf(h, tag);
    assert forall tag: string :: Durable(g, tag) == Durable(h, tag);
  }

  /** A step that writes neither the file nor the sidecar leaves the records fitting. */
  lemma FitsAt(h: Host, v: World, env: Env, care: Care)
    requires QuietFiles(h) && RecordsFit(h, env, care) && v.host.disk == h.disk && v.host.ledger.sidecar == h.ledger.sidecar
    requires PointFits(v.host, v.at, env, care)
    ensures Fitting(v, env, care)
  {
    RecordsStay(h, v.host, env, care);
  }

  lemma SnapshotStays(h: Host, g: Host, txn: Option<Transaction>, tag: string, path: string, snapshot: Option<Config>,
                      original: Option<Fields>, env: Env, care: Care)
    requires SnapshotFits(h, txn, tag, path, snapshot, original, env, care)
    requires g.disk.path == h.disk.path && g.ledger.sidecar == h.ledger.sidecar
    ensures SnapshotFits(g, txn, tag, path, snapshot, original, env, care)
  {
  }

  /** Once the file has been written, it holds what the runtime is to get. */
  lemma WritingFits(h: Host, g: Host, a: Add, env: Env, care: Care)
    requires Snapshot(h).Some? && AddFits(h, a, false, env, care)
    requires g.ledger == h.ledger && g.embedded == h.embedded && g.disk.path == h.disk.path
    requires Durable(g, a.tag) == Some(Prepared(Snapshot(h).value, a.tag, a.inbound, env))
    ensures AddFits(g, AfterWriting(h, a, Snapshot(h).value, env), true, env, care)
  {
    SnapshotStays(h, g, a.txn, a.tag, a.path, a.snapshot, a.original, env, care);
  }

  lemma PersistFits(h: Host, a: Add, o: Outcome, env: Env, care: Care)
    requires SoundLedger(h.ledger) && AddHolds(h, a) && QuietFiles(h) && RecordsFit(h, env, care) && AddFits(h, a, false, env, care)
    ensures Fitting(Persist(h, a, o, env), env, care)
  {
    var config := Snapshot(h).value;
    var g := WithConfig(h, a.path, Some(Upsert(config, a.tag, a.inbound, env)), o.write);
    var b := AfterWriting(h, a, config, env);
    assert Persist(h, a, o, env) == World(g, if o.write.Done? then Sealing(b) else Restoring(UndoOfAdd(a)));
    SnapshotStays(h, g, a.txn, a.tag, a.path, a.snapshot, a.original, env, care);
    if Applied(o.write) {
      PersistedFits(h, a, o.write, env, care);
      WritingFits(h, g, a, env, care);
    } else {
      RecordsStay(h, g, env, care);
    }
  }

  lemma PersistedFits(h: Host, a: Add, w: Write, env: Env, care: Care)
    requires SoundLedger(h.ledger) && AddHolds(h, a) && QuietFiles(h) && RecordsFit(h, env, care) && AddFits(h, a, false, env, care)
    requires Applied(w)
    ensures var g := WithConfig(h, a.path, Some(Upsert(Snapshot(h).value, a.tag, a.inbound, env)), w);
            QuietFiles(g) && RecordsFit(g, env, care)
            && Durable(g, a.tag) == Some(Prepared(Snapshot(h).value, a.tag, a.inbound, env))
  {
    var config := Snapshot(h).value;
    UpsertHolds(config, a.tag, a.inbound, env);
    var g := WithConfig(h, a.path, Some(Upsert(config, a.tag, a.inbound, env)), w);
    assert Snapshot(g) == Some(Upsert(config, a.tag, a.inbound, env));
    forall tag: string | Pends(g, tag)
      ensures RecordFits(g, tag, env, care)
    {
      if a.txn.None? { NonePends(h, tag); } else { OnlyItsTag(h, a.txn.value, tag); }
    }
  }

  /** A step that touches the runtime only leaves an add, and its undoing, fitting. */
  lemma AddStays(h: Host, g: Host, a: Add, env: Env, care: Care)
    requires AddFits(h, a, true, env, care) && g == h.(runtime := g.runtime)
    ensures AddFits(g, a, true, env, care) && UndoFits(g, UndoOfAdd(a), false, env, care)
  {
    SnapshotStays(h, g, a.txn, a.tag, a.path, a.snapshot, a.original, env, care);
  }

  lemma AddedAgrees(h: Host, a: Add, o: Outcome)
    requires Durable(h, a.tag) == Some(a.built)
    ensures var g := Added(h, a.tag, a.built, o);
            g == h.(runtime := g.runtime) && (AddDone(h, o) ==> Agreed(g, a.tag))
  {
  }

  lemma ActivateFits(h: Host, a: Add, o: Outcome, env: Env, care: Care)
    requires QuietFiles(h) && RecordsFit(h, env, care) && AddFits(h, a, true, env, care)
    ensures Fitting(Activate(h, a, o), env, care)
  {
    var v := Activate(h, a, o);
    assert v.host == h.(runtime := v.host.runtime);
    AddStays(h, v.host, a, env, care);
    if a.txn.Some? && care.agree {
      AddedAgrees(h, a, o);
    }
    RecordsStay(h, v.host, env, care);
  }

  lemma CommitFits(h: Host, a: Add, o: Outcome, env: Env, care: Care)
    requires SoundLedger(h.ledger) && AddHolds(h, a) && QuietFiles(h) && RecordsFit(h, env, care)
    requires AddFits(h, a, true, env, care) && (care.agree && a.txn.Some? ==> Agreed(h, a.tag))
    ensures Fitting(Commit(h, a, o, env), env, care)
  {
    var v := Commit(h, a, o, env);
    if a.txn.Some? {
      CommitSafe(h.ledger, a.txn.value, h.disk, env.digest, o.write);
      forall tag: string
        ensures Pends(v.host, tag) ==> Pends(h, tag) && RecordOf(v.host, tag) == RecordOf(h, tag)
        ensures care.agree && Pends(h, tag) ==> Agreed(h, tag)
      {
        OnlyItsTag(h, a.txn.value, tag);
        CommitKeepsOrEnds(h.ledger, a.txn.value, h.disk, env.digest, o.write, tag);
      }
    } else {
      forall tag: string ensures !Pends(v.host, tag) { NonePends(h, tag); }
    }
    assert forall tag: string :: Durable(v.host, tag) == Durable(h, tag) && Live(v.host, tag) == Live(h, tag);
  }

  lemma CommitKeepsOrEnds(l: Ledger, txn: Transaction, disk: Disk, digest: Fields -> string, w: Write, tag: string)
    requires SoundLedger(l) && InPlace(l, txn)
    ensures var after := At(AfterCommit(l, txn, disk, digest, w).sidecar, tag);
            after == At(l.sidecar, tag) || after.pending.None?
  {
    LedgerAgrees(l, tag);
    if Committable(l, txn, disk, digest) {
      var candidate := Committed(l.states, txn);
      assert At(OnFile(candidate), tag) == At(candidate, tag);
    }
  }

  // ----- a rollback -----

  lemma RestoreFits(h: Host, u: Undo, o: Outcome, env: Env, care: Care)
    requires SoundLedger(h.ledger) && UndoHolds(h, u) && QuietFiles(h) && RecordsFit(h, env, care) && UndoFits(h, u, false, env, care)
    ensures Fitting(World(WithConfig(h, u.path, u.snapshot, o.write), Reverting(u, o.write.Done?)), env, care)
  {
    var g := WithConfig(h, u.path, u.snapshot, o.write);
    SnapshotStays(h, g, u.txn, u.tag, u.path, u.snapshot, u.original, env, care);
    if Applied(o.write) {
      assert Snapshot(g) == u.snapshot;
      forall tag: string | Pends(g, tag)
        ensures RecordFits(g, tag, env, care)
      {
        if u.txn.None? { NonePends(h, tag); } else { OnlyItsTag(h, u.txn.value, tag); }
      }
    } else {
      FitsAt(h, World(g, Reverting(u, false)), env, care);
    }
  }

  lemma RevertFits(h: Host, u: Undo, restored: bool, o: Outcome, env: Env, care: Care)
    requires QuietFiles(h) && RecordsFit(h, env, care) && UndoFits(h, u, restored, env, care)
    requires care.agree ==> QuietOutcome(h, Reverting(u, restored), "", o)
    ensures Fitting(World(Revert(h, u, o), Resealing(u, restored, RevertDone(h, u, o))), env, care)
  {
    var g := Revert(h, u, o);
    assert g == h.(runtime := g.runtime);
    if care.agree {
      RevertAgrees(h, u, o);
    }
    SnapshotStays(h, g, u.txn, u.tag, u.path, u.snapshot, u.original, env, care);
    FitsAt(h, World(g, Resealing(u, restored, RevertDone(h, u, o))), env, care);
  }

  lemma RevertAgrees(h: Host, u: Undo, o: Outcome)
    requires !(h.embedded && u.original.Some?) ==> !Mistaken(h, u.tag, u.original, o)
    ensures var g := Revert(h, u, o);
            && g == h.(runtime := g.runtime)
            && (h.authorized && h.running && RevertDone(h, u, o) ==> Live(g, u.tag) == u.original)
  {
    MatchedAgrees(h, u.tag, u.original, o);
  }

  lemma RecoverFits(h: Host, env: Env, care: Care)
    requires SoundLedger(h.ledger) && QuietFiles(h) && RecordsFit(h, env, care)
    ensures Fitting(Recover(h, env), env, care)
  {
    var v := Recover(h, env);
    forall tag: string
      ensures Pends(v.host, tag) <==> IsPending(v.host.ledger.states, tag)
    {
      LedgerAgrees(h.ledger, tag);
    }
    FitsAt(h, v, env, care);
  }

  lemma ResealFits(h: Host, u: Undo, restored: bool, reverted: bool, o: Outcome, env: Env, care: Care)
    requires SoundLedger(h.ledger) && UndoHolds(h, u) && QuietFiles(h) && RecordsFit(h, env, care)
    requires PointFits(h, Resealing(u, restored, reverted), env, care)
    ensures Fitting(Reseal(h, u, restored, reverted, o, env), env, care)
  {
    if u.txn.None? {
      forall tag: string ensures !Pends(h, tag) { NonePends(h, tag); }
    }
    if u.isAdd && !(restored && reverted && o.ok) {
      RecoverFits(h, env, care);
    } else {
      FitsAt(h, Reseal(h, u, restored, reverted, o, env), env, care);
    }
  }

  lemma PutBackFits(h: Host, txn: Transaction, w: Write, env: Env, care: Care)
    requires SoundLedger(h.ledger) && InPlace(h.ledger, txn) && QuietFiles(h) && RecordsFit(h, env, care)
    requires care.agree && h.ledger.ready && w.FailedBefore? ==> Agreed(h, txn.tag)
    ensures Fitting(World(h.(ledger := Persisted(h.ledger, PutBack(h.ledger.states, txn), w)), Idle), env, care)
  {
    var g := h.(ledger := Persisted(h.ledger, PutBack(h.ledger.states, txn), w));
    PutBackSafe(h.ledger, txn, w);
    forall tag: string
      ensures Pends(g, tag) ==> tag == txn.tag && g.ledger == h.ledger
    {
      PutBackAt(h.ledger, txn, tag);
      OnlyItsTag(h, txn, tag);
      assert At(OnFile(PutBack(h.ledger.states, txn)), tag) == At(PutBack(h.ledger.states, txn), tag);
    }
    assert forall tag: string :: Durable(g, tag) == Durable(h, tag) && Live(g, tag) == Live(h, tag);
  }

  // ----- a recovery -----

  /** For a record that names it, the file in use decides alone. */
  lemma InUseDecides(h: Host, tag: string, env: Env)
    requires QuietFiles(h) && Pends(h, tag) && RecordOf(h, tag).configPath == h.disk.path
    ensures ActualInbound(h.disk, tag, RecordOf(h, tag), env.digest)
         == if Single(Snapshot(h), tag) then Actual(Durable(h, tag)) else Undecided
  {
    var config := Snapshot(h).value;
    assert Paths(RecordOf(h, tag), h.disk.path) == [h.disk.path];
    ExistingNext(h.disk.configs, [h.disk.path], 0);
    assert [h.disk.path][..1] == [h.disk.path] && [h.disk.path][..0] == [];
    assert Existing(h.disk.configs, [h.disk.path]) == [config];
  }

  ghost predicate PendsOnce(h: Host)
  {
    forall tag: string :: Pends(h, tag) ==> Single(Snapshot(h), tag)
  }

  lemma DecidedUnlessTwins(w: World, env: Env, care: Care, tag: string)
    requires Quiet(w, env, care) && TellsApart(care)
    ensures Decided(tag, At(Loaded(w.host.ledger).states, tag), w.host.disk, env.digest)
        <==> (Pends(w.host, tag) ==> Single(Snapshot(w.host), tag))
  {
    LedgerAgrees(w.host.ledger, tag);
    if Pends(w.host, tag) {
      InUseDecides(w.host, tag, env);
      assert SoundState(At(w.host.ledger.sidecar, tag));
    }
  }

  /** A recovery refuses exactly when the file has a pending tag twice. */
  lemma RecoveryRefusesTwins(w: World, env: Env, care: Care)
    requires Quiet(w, env, care) && TellsApart(care)
    ensures AllDecided(Loaded(w.host.ledger).states, w.host.disk, env.digest) <==> PendsOnce(w.host)
  {
    var states := Loaded(w.host.ledger).states;
    if PendsOnce(w.host) {
      forall tag | tag in states ensures Decided(tag, states[tag], w.host.disk, env.digest) {
        DecidedUnlessTwins(w, env, care, tag);
      }
    } else {
      var tag: string :| Pends(w.host, tag) && !Single(Snapshot(w.host), tag);
      DecidedUnlessTwins(w, env, care, tag);
      assert tag in states;
    }
  }

  lemma MatchedAgrees(h: Host, tag: string, inbound: Option<Fields>, o: Outcome)
    ensures var g := Matched(h, tag, inbound, o);
            && g == h.(runtime := g.runtime)
            && (forall t: string :: t != tag ==> Live(g, t) == Live(h, t))
            && (h.authorized && h.running && MatchDone(h, tag, inbound, o) && (inbound.None? ==> !Mistaken(h, tag, None, o)) ==>
                  Live(g, tag) == inbound)
  {
  }

  /** Where a convergence does not turn to the runtime. */
  lemma ConvergeWaits(h: Host, todo: set<string>, tag: string, o: Outcome, env: Env, care: Care)
    requires SoundLedger(h.ledger) && h.ledger.loaded && !h.ledger.ready && QuietFiles(h) && RecordsFit(h, env, care)
    requires PendingAgreed(h, todo, care)
    requires tag in todo && Pends(h, tag) && Single(Snapshot(h), tag) ==> Durable(h, tag).Some? && !o.mapped
    ensures var v := Converge(h, todo, tag, o, env); v.host == h && PointFits(h, v.at, env, care)
  {
    LedgerAgrees(h.ledger, tag);
    if Pends(h, tag) {
      InUseDecides(h, tag, env);
    }
  }

  lemma ConvergeTurns(h: Host, todo: set<string>, tag: string, o: Outcome, env: Env)
    requires SoundLedger(h.ledger) && h.ledger.loaded && QuietFiles(h) && RecordOfInUse(h, tag)
    requires tag in todo && Single(Snapshot(h), tag) && (Durable(h, tag).Some? ==> o.mapped)
    ensures Converge(h, todo, tag, o, env)
         == World(Matched(h, tag, Durable(h, tag), o), if MatchDone(h, tag, Durable(h, tag), o) then Converging(todo - {tag}) else Idle)
  {
    LedgerAgrees(h.ledger, tag);
    InUseDecides(h, tag, env);
  }

  predicate RecordOfInUse(h: Host, tag: string)
  {
    Pends(h, tag) && RecordOf(h, tag).configPath == h.disk.path
  }

  lemma ConvergeFits(h: Host, todo: set<string>, tag: string, o: Outcome, env: Env, care: Care)
    requires SoundLedger(h.ledger) && h.ledger.loaded && !h.ledger.ready && QuietFiles(h) && RecordsFit(h, env, care)
    requires PendingAgreed(h, todo, care) && (care.agree ==> QuietOutcome(h, Converging(todo), tag, o))
    ensures Fitting(Converge(h, todo, tag, o, env), env, care)
  {
    if tag in todo && Pends(h, tag) && Single(Snapshot(h), tag) && (Durable(h, tag).Some? ==> o.mapped) {
      ConvergeTurns(h, todo, tag, o, env);
      ConvergedFits(h, todo, tag, o, env, care);
    } else {
      ConvergeWaits(h, todo, tag, o, env, care);
    }
  }

  lemma ConvergedFits(h: Host, todo: set<string>, tag: string, o: Outcome, env: Env, care: Care)
    requires !h.ledger.ready && QuietFiles(h) && RecordsFit(h, env, care) && PendingAgreed(h, todo, care)
    requires care.agree && Durable(h, tag).None? ==> !Mistaken(h, tag, None, o)
    ensures var g, done := Matched(h, tag, Durable(h, tag), o), MatchDone(h, tag, Durable(h, tag), o);
            Fitting(World(g, if done then Converging(todo - {tag}) else Idle), env, care)
  {
    var g, done := Matched(h, tag, Durable(h, tag), o), MatchDone(h, tag, Durable(h, tag), o);
    MatchedAgrees(h, tag, Durable(h, tag), o);
    assert forall t: string :: Durable(g, t) == Durable(h, t);
    FitsAt(h, World(g, if done then Converging(todo - {tag}) else Idle), env, care);
  }

  lemma ResolveFits(h: Host, w: Write, env: Env, care: Care)
    requires SoundLedger(h.ledger) && h.ledger.loaded && QuietFiles(h) && RecordsFit(h, env, care) && PendingAgreed(h, {}, care)
    ensures Fitting(World(h.(ledger := AfterResolve(h.ledger, h.disk, env.digest, w)), Idle), env, care)
  {
    var g := h.(ledger := AfterResolve(h.ledger, h.disk, env.digest, w));
    forall tag: string
      ensures Pends(g, tag) ==> Pends(h, tag) && RecordOf(g, tag) == RecordOf(h, tag)
    {
      ResolveRecords(h.ledger, h.disk, env.digest, w, tag);
    }
    FewerFit(h, World(g, Idle), env, care);
  }

  /** Back at rest with no more pending than before. */
  lemma FewerFit(h: Host, v: World, env: Env, care: Care)
    requires QuietFiles(h) && RecordsFit(h, env, care) && PendingAgreed(h, {}, care)
    requires v.at.Idle? && v.host == h.(ledger := v.host.ledger)
    requires forall tag: string :: Pends(v.host, tag) ==> Pends(h, tag) && RecordOf(v.host, tag) == RecordOf(h, tag)
    ensures Fitting(v, env, care)
  {
    assert forall tag: string :: Durable(v.host, tag) == Durable(h, tag) && Live(v.host, tag) == Live(h, tag);
  }

  // ----- a remove, and the other requests -----

  /** With nothing pending, everything fits. */
  lemma NothingPendsFits(v: World, env: Env, care: Care)
    requires QuietFiles(v.host) && forall tag: string :: !Pends(v.host, tag)
    requires v.at.Idle? || v.at.Completing?
    ensures Fitting(v, env, care)
  {
  }

  predicate RemovalPoint(at: Point)
  {
    at.Detaching? || at.Erasing? || at.Unsealing? || at.Completing?
  }

  lemma RemovalFits(w: World, pick: string, o: Outcome, env: Env, care: Care)
    requires Quiet(w, env, care) && RemovalPoint(w.at)
    ensures Fitting(Go(w.host, w.at, pick, o, env), env, care)
  {
    var h, v := w.host, Go(w.host, w.at, pick, o, env);
    forall tag: string
      ensures !Pends(h, tag) && (w.at.Completing? ==> !Pends(v.host, tag))
    {
      NonePends(h, tag);
      if w.at.Completing? {
        CompleteKeepsOrEnds(h, w.at.removal, o.write, tag);
      }
    }
    if w.at.Completing? {
      NothingPendsFits(v, env, care);
    } else if w.at.Erasing? {
      EraseFits(h, w.at.removal, o, env, care);
    } else {
      FitsAt(h, v, env, care);
    }
  }

  lemma CompleteKeepsOrEnds(h: Host, r: Removal, w: Write, tag: string)
    requires SoundLedger(h.ledger) && RemovalHolds(h, r)
    ensures At(AfterCompleteRemoval(h.ledger, r.tag, r.id, w).sidecar, tag).pending.None?
  {
    LedgerAgrees(h.ledger, tag);
    var candidate := Unowned(h.ledger.states, r.tag);
    assert At(OnFile(candidate), tag) == At(candidate, tag);
  }

  lemma EraseFits(h: Host, r: Removal, o: Outcome, env: Env, care: Care)
    requires SoundLedger(h.ledger) && RemovalHolds(h, r) && QuietFiles(h) && RecordsFit(h, env, care) && PointFits(h, Erasing(r), env, care)
    ensures Fitting(Erase(h, r, o), env, care)
  {
    var v := Erase(h, r, o);
    forall tag: string ensures !Pends(v.host, tag) { NonePends(h, tag); }
  }

  lemma StartAddFits(h: Host, req: Request, w: Write, env: Env, care: Care)
    requires SoundLedger(h.ledger) && QuietFiles(h) && RecordsFit(h, env, care) && (h.ledger.ready ==> PendingAgreed(h, {}, care))
    requires req.mutationId != "" ==> QuietAdd(h, req, env, care)
    ensures Fitting(StartAdd(h, req, w, env), env, care)
  {
    var v := StartAdd(h, req, w, env);
    if Turned(h, req, env) {
      FitsAt(h, v, env, care);
    } else if req.mutationId == "" {
      FitsAt(h, v, env, care);
    } else {
      ReservedFits(h, req, w, env, care);
    }
  }

  lemma ReservedFits(h: Host, req: Request, w: Write, env: Env, care: Care)
    requires SoundLedger(h.ledger) && QuietFiles(h) && RecordsFit(h, env, care) && !Turned(h, req, env)
    requires req.mutationId != "" && QuietAdd(h, req, env, care)
    ensures Fitting(StartAdd(h, req, w, env), env, care)
  {
    var add, req1 := AddOf(h, req, env), PreparedRequest(h, req, env);
    var pending := PendingOf(At(h.ledger.states, req.tag), req.tag in h.ledger.states, req1, h.disk.path, add.original, env.digest);
    var v := StartAdd(h, req, w, env);
    forall tag: string
      ensures Pends(v.host, tag) <==> (Applied(w) && tag == req.tag)
      ensures Pends(v.host, tag) ==> RecordOf(v.host, tag) == pending
    {
      ReservedRecord(h, req1, add.original, w, env, tag);
    }
    PreparedTwice(Snapshot(h).value, req.tag, req.inbound, env);
    OneRecordFits(h, v, req.tag, pending, env, care);
  }

  lemma ReservedRecord(h: Host, req: Request, original: Option<Fields>, w: Write, env: Env, tag: string)
    requires SoundLedger(h.ledger) && Quiescent(h)
    ensures var pending := PendingOf(At(h.ledger.states, req.tag), req.tag in h.ledger.states, req, h.disk.path, original, env.digest);
            var st := At(Persisted(h.ledger, Reserved(h.ledger.states, req, h.disk.path, original, env.digest), w).sidecar, tag);
            st.pending == if Applied(w) && tag == req.tag then Some(pending) else None
  {
    LedgerAgrees(h.ledger, tag);
    var candidate := Reserved(h.ledger.states, req, h.disk.path, original, env.digest);
    assert At(OnFile(candidate), tag) == At(candidate, tag);
  }

  /** With one record, which names the file in use and describes what it holds, everything fits. */
  lemma OneRecordFits(h: Host, v: World, own: string, pending: Pending, env: Env, care: Care)
    requires QuietFiles(h) && v.host == h.(ledger := v.host.ledger)
    requires forall tag: string :: Pends(v.host, tag) ==> tag == own && RecordOf(v.host, tag) == pending
    requires pending.configPath == h.disk.path && FitsOld(pending, Durable(h, own), env.digest)
    requires care.once ==> Single(Snapshot(h), own)
    requires PointFits(v.host, v.at, env, care)
    ensures Fitting(v, env, care)
  {
    assert forall tag: string :: Durable(v.host, tag) == Durable(h, tag);
  }

  lemma StartRemoveFits(h: Host, tag: string, id: string, w: Write, env: Env, care: Care)
    requires SoundLedger(h.ledger) && QuietFiles(h) && RecordsFit(h, env, care) && Quiescent(h)
    ensures Fitting(StartRemove(h, tag, id, w), env, care)
  {
    var v := StartRemove(h, tag, id, w);
    CancelSafe(h.ledger, tag, id, w);
    forall t: string ensures !Pends(v.host, t) { NonePends(v.host, t); }
    assert Snapshot(v.host) == Snapshot(h);
  }

  lemma StartedRecords(h: Host, withheld: set<string>, up: bool, env: Env, care: Care)
    requires SoundLedger(h.ledger) && QuietFiles(h) && RecordsFit(h, env, care)
    ensures var g := Started(h, withheld, up);
            && SoundLedger(g.ledger) && QuietFiles(g) && RecordsFit(g, env, care)
            && g.ledger.sidecar == h.ledger.sidecar && g.ledger.ready == h.ledger.ready
            && g.disk == h.disk && g.authorized == h.authorized
  {
    LoadedSafe(h);
    RecordsStay(h, Started(h, withheld, up), env, care);
  }

  lemma StartFits(h: Host, e: Event, env: Env, care: Care)
    requires SoundLedger(h.ledger) && QuietFiles(h) && RecordsFit(h, env, care) && e.Starting?
    ensures Fitting(Start(h, e, env), env, care)
  {
    var g := Started(h, e.withheld, e.up);
    StartedRecords(h, e.withheld, e.up, env, care);
    if g.running && (e.recovering || (h.authorized && h.ledger.ready && !Quiescent(h))) {
      RecoverFits(g, env, care);
    } else {
      RestingFits(h, g, env, care);
    }
  }

  /** A start that does not go on to a recovery is at rest: nothing runs, nothing is promised, or nothing pends. */
  lemma RestingFits(h: Host, g: Host, env: Env, care: Care)
    requires SoundLedger(h.ledger) && QuietFiles(g) && RecordsFit(g, env, care)
    requires g.ledger.sidecar == h.ledger.sidecar && g.ledger.ready == h.ledger.ready && g.authorized == h.authorized
    requires g.running ==> !(h.authorized && h.ledger.ready && !Quiescent(h))
    ensures Fitting(World(g, Idle), env, care)
  {
    if Quiescent(h) {
      forall tag: string ensures !Pends(g, tag) { NonePends(h, tag); }
    }
  }

  lemma EditFits(h: Host, e: Event, env: Env, care: Care)
    requires SoundLedger(h.ledger) && QuietFiles(h) && Quiescent(h) && e.Editing?
    ensures Fitting(World(Replaced(WithConfig(h, h.disk.path, Some(e.config), e.o.write), e.edited, e.inbound, e.o), Idle), env, care)
  {
    var g := Replaced(WithConfig(h, h.disk.path, Some(e.config), e.o.write), e.edited, e.inbound, e.o);
    assert g.ledger == h.ledger && (Snapshot(g) == Snapshot(h) || Snapshot(g) == Some(e.config));
    forall tag: string ensures !Pends(g, tag) { NonePends(h, tag); }
  }

  lemma EnsureFits(h: Host, w: Write, env: Env, care: Care)
    requires SoundLedger(h.ledger) && QuietFiles(h) && RecordsFit(h, env, care) && (h.ledger.ready ==> PendingAgreed(h, {}, care))
    ensures Fitting(World(h.(ledger := AfterEnsure(h.ledger, h.disk, env.digest, w)), Idle), env, care)
  {
    var g := h.(ledger := Loaded(h.ledger));
    LoadedSafe(h);
    RecordsStay(h, g, env, care);
    assert forall tag: string :: Pends(g, tag) == Pends(h, tag) && Durable(g, tag) == Durable(h, tag) && Live(g, tag) == Live(h, tag);
    if g.ledger.ready {
      ResolveFits(g, w, env, care);
    }
  }

  lemma DeniedFits(h: Host, failing: map<string, Left>, env: Env, care: Care)
    requires QuietFiles(h) && RecordsFit(h, env, care)
    ensures Fitting(World(Denied(h, failing), Idle), env, care)
  {
    FitsAt(h, World(Denied(h, failing), Idle), env, care);
  }

  lemma ReenabledFits(h: Host, tag: string, mapped: bool, o: Outcome, env: Env, care: Care)
    requires SoundLedger(h.ledger) && QuietFiles(h) && RecordsFit(h, env, care) && Quiescent(h)
    ensures Fitting(World(Reenabled(h, tag, mapped, o), Idle), env, care)
  {
    var g := Reenabled(h, tag, mapped, o);
    forall t: string ensures !Pends(g, t) { NonePends(h, t); }
    FitsAt(h, World(g, Idle), env, care);
  }

  lemma StoppedFits(h: Host, env: Env, care: Care)
    requires QuietFiles(h) && RecordsFit(h, env, care)
    ensures Fitting(World(h.(running := false, runtime := map[]), Idle), env, care)
  {
    FitsAt(h, World(h.(running := false, runtime := map[]), Idle), env, care);
  }

  lemma BeginFits(w: World, e: Event, env: Env, care: Care)
    requires Quiet(w, env, care) && w.at.Idle? && QuietEvent(w, e, env, care) && !e.Step? && !e.Outside? && !e.Crashing?
    ensures Fitting(Begin(w.host, e, env), env, care)
  {
    var h := w.host;
    match e
    case Ensuring(write) => EnsureFits(h, write, env, care);
    case Adding(req, write) => StartAddFits(h, req, write, env, care);
    case Removing(tag, id, write) => if Quiescent(h) { StartRemoveFits(h, tag, id, write, env, care); }
    case Recovering => RecoverFits(h, env, care);
    case Granting => RecoverGranted(h, env, care);
    case Editing(_, _, _, _) => if Quiescent(h) { EditFits(h, e, env, care); }
    case Starting(_, _, _) => StartFits(h, e, env, care);
    case Stopping => StoppedFits(h, env, care);
    case Denying(failing) => DeniedFits(h, failing, env, care);
    case Reenabling(tag, mapped, o) => if Quiescent(h) { ReenabledFits(h, tag, mapped, o, env, care); }
  }

  lemma RecoverGranted(h: Host, env: Env, care: Care)
    requires SoundLedger(h.ledger) && QuietFiles(h) && RecordsFit(h, env, care)
    ensures Fitting(Recover(h.(authorized := true), env), env, care)
  {
    var g := h.(authorized := true);
    RecordsStay(h, g, env, care);
    RecoverFits(g, env, care);
  }

  // ----- every quiet step -----

  lemma StepFits(w: World, e: Event, env: Env, care: Care)
    requires Quiet(w, env, care) && QuietEvent(w, e, env, care) && e.Step?
    ensures Fitting(Go(w.host, w.at, e.tag, e.o, env), env, care)
  {
    if RemovalPoint(w.at) {
      RemovalFits(w, e.tag, e.o, env, care);
    } else if w.at.Sealing? || w.at.Guarding? {
      WaitFits(w.host, w.at, e.tag, e.o, env, care);
    } else {
      WorkFits(w.host, w.at, e.tag, e.o, env, care);
    }
  }

  /** The firewall has no part in what is compared. */
  lemma WaitFits(h: Host, at: Point, tag: string, o: Outcome, env: Env, care: Care)
    requires (at.Sealing? || at.Guarding?) && QuietFiles(h) && RecordsFit(h, env, care) && PointFits(h, at, env, care) && PointHolds(h, at)
    ensures Fitting(Go(h, at, tag, o, env), env, care)
  {
    FitsAt(h, Go(h, at, tag, o, env), env, care);
  }

  lemma WorkFits(h: Host, at: Point, tag: string, o: Outcome, env: Env, care: Care)
    requires !RemovalPoint(at) && !at.Sealing? && !at.Guarding?
    requires SoundLedger(h.ledger) && PointHolds(h, at) && QuietFiles(h) && RecordsFit(h, env, care) && PointFits(h, at, env, care)
    requires care.agree ==> QuietOutcome(h, at, tag, o)
    ensures Fitting(Go(h, at, tag, o, env), env, care)
  {
    match at
    case Idle =>
    case Unreserving(txn) => PutBackFits(h, txn, o.write, env, care);
    case Persisting(a) => PersistFits(h, a, o, env, care);
    case Activating(a) => ActivateFits(h, a, o, env, care);
    case Committing(a) => CommitFits(h, a, o, env, care);
    case Restoring(u) => RestoreFits(h, u, o, env, care);
    case Reverting(u, restored) => RevertFits(h, u, restored, o, env, care);
    case Resealing(u, restored, reverted) => ResealFits(h, u, restored, reverted, o, env, care);
    case Releasing(txn) => PutBackFits(h, txn, o.write, env, care);
    case Converging(todo) => ConvergeFits(h, todo, tag, o, env, care);
    case Resolving => ResolveFits(h, o.write, env, care);
  }

  lemma CrashedFits(h: Host, authorized: bool, env: Env, care: Care)
    requires QuietFiles(h) && RecordsFit(h, env, care)
    ensures Fitting(World(Crashed(h, authorized), Idle), env, care)
  {
    FitsAt(h, World(Crashed(h, authorized), Idle), env, care);
  }

  lemma QuietStep(w: World, e: Event, env: Env, care: Care)
    requires Quiet(w, env, care) && QuietEvent(w, e, env, care)
    ensures Quiet(Next(w, e, env), env, care)
  {
    EveryStepSane(w, e, env);
    if e.Step? {
      StepFits(w, e, env, care);
    } else if e.Crashing? {
      CrashedFits(w.host, e.authorized, env, care);
    } else if w.at.Idle? {
      BeginFits(w, e, env, care);
    }
  }

  /** The events of a run are quiet, each in the world it meets. */
  ghost predicate QuietRun(w: World, events: seq<Event>, env: Env, care: Care)
  {
    events == [] ||
    (QuietRun(w, events[..|events| - 1], env, care) && QuietEvent(Run(w, events[..|events| - 1], env), events[|events| - 1], env, care))
  }

  lemma {:induction false} RunQuiet(w: World, events: seq<Event>, env: Env, care: Care)
    requires Quiet(w, env, care) && QuietRun(w, events, env, care)
    ensures Quiet(Run(w, events, env), env, care)
  {
    if events != [] {
      RunQuiet(w, events[..|events| - 1], env, care);
      QuietStep(Run(w, events[..|events| - 1], env), events[|events| - 1], env, care);
    }
  }

  /** At rest, while the server is authorized, a pending add that is ready to be resolved has the
      runtime agree with the file. */
  lemma ReadyMeansAgreed(w: World, events: seq<Event>, env: Env, care: Care, tag: string)
    requires care.agree && Quiet(w, env, care) && QuietRun(w, events, env, care)
    ensures var v := Run(w, events, env);
            v.at.Idle? && v.host.authorized && v.host.ledger.ready && Pends(v.host, tag) ==> Agreed(v.host, tag)
  {
    RunQuiet(w, events, env, care);
  }

  /** Whatever happened before, a recovery can decide every pending add, when each add of the run was
      of a tag that the file had at most once. */
  lemma RecoveryNeverRefuses(w: World, events: seq<Event>, env: Env, care: Care)
    requires care.once && Quiet(w, env, care) && QuietRun(w, events, env, care)
    ensures var v := Run(w, events, env); AllDecided(Loaded(v.host.ledger).states, v.host.disk, env.digest)
  {
    RunQuiet(w, events, env, care);
    RecoveryRefusesTwins(Run(w, events, env), env, care);
  }

  /** While the server is authorized, no step makes an id the owner of a tag whose inbound the
      runtime disagrees with. */
  lemma PublishedAgrees(w: World, events: seq<Event>, e: Event, env: Env, care: Care, tag: string)
    requires care.agree && Quiet(w, env, care) && QuietRun(w, events, env, care) && Run(w, events, env).host.authorized
    ensures var v := Run(w, events, env);
            var owner := At(Next(v, e, env).host.ledger.sidecar, tag).owner;
            owner != At(v.host.ledger.sidecar, tag).owner && owner != "" ==> Agreed(Next(v, e, env).host, tag)
  {
    RunQuiet(w, events, env, care);
    PublishingAgrees(Run(w, events, env), e, env, care, tag);
  }

  lemma PublishingAgrees(v: World, e: Event, env: Env, care: Care, tag: string)
    requires care.agree && Quiet(v, env, care) && v.host.authorized
    ensures var owner := At(Next(v, e, env).host.ledger.sidecar, tag).owner;
            owner != At(v.host.ledger.sidecar, tag).owner && owner != "" ==> Agreed(Next(v, e, env).host, tag)
  {
    EveryStepSane(v, e, env);
    var u := Next(v, e, env);
    var before, after := At(v.host.ledger.sidecar, tag), At(u.host.ledger.sidecar, tag);
    if after.owner != before.owner && after.owner != "" {
      assert OwnerMoves(v, e, tag, before, after, env);
      if CommittedBy(v, e, tag, after) {
        assert u.host == v.host.(ledger := u.host.ledger) && Agreed(v.host, tag);
      } else if e.Ensuring? {
        assert u.host == v.host.(ledger := u.host.ledger) && Agreed(v.host, tag);
      } else {
        assert u.host == v.host.(ledger := u.host.ledger) && Agreed(v.host, tag);
      }
    }
  }

  // ----- where the agreement would be lost -----

  /** An agent that crashes right after a reservation can recover exactly when the file has the tag at
      most once: an add of a tag that it has twice is let through, and its record cannot be decided. */
  lemma CrashAfterReservation(w: World, req: Request, authorized: bool, env: Env, care: Care)
    requires Quiet(w, env, care) && w.at.Idle? && !Turned(w.host, req, env) && req.mutationId != "" && QuietAdd(w.host, req, env, care)
    requires TellsApart(care)
    ensures var h := Crashed(StartAdd(w.host, req, Done, env).host, authorized);
            AllDecided(Loaded(h.ledger).states, h.disk, env.digest) <==> Single(Snapshot(w.host), req.tag)
  {
    var u := StartAdd(w.host, req, Done, env);
    QuietStep(w, Adding(req, Done), env, care);
    assert u == Next(w, Adding(req, Done), env);
    QuietStep(u, Crashing(authorized), env, care);
    var v := World(Crashed(u.host, authorized), Idle);
    assert v == Next(u, Crashing(authorized), env);
    RecoveryRefusesTwins(v, env, care);
    forall tag: string ensures Pends(v.host, tag) <==> tag == req.tag {
      ReservedRecord(w.host, PreparedRequest(w.host, req, env), AddOf(w.host, req, env).original, Done, env, tag);
    }
  }

  /** A reservation whose write failed after the rename, and could not be taken back, leaves a ready
      record behind. The runtime agrees about it exactly when it did before the add. */
  lemma StrandedRecord(h: Host, req: Request, pick: string, o: Outcome, env: Env)
    requires SoundLedger(h.ledger) && h.ledger.ready && !Turned(h, req, env) && req.mutationId != "" && o.write.FailedBefore?
    ensures var w := Next(World(h, Idle), Adding(req, FailedAfter), env);
            var v := Next(w, Step(pick, o), env);
            && v.at.Idle? && v.host.ledger.ready && Pends(v.host, req.tag)
            && (Agreed(v.host, req.tag) <==> Agreed(h, req.tag))
  {
    var w := StartAdd(h, req, FailedAfter, env);
    assert w.host == h.(ledger := w.host.ledger);
    assert IsPending(w.host.ledger.states, req.tag);
    var v := Go(w.host, w.at, pick, o, env);
    assert v == World(w.host, Idle);
    assert Durable(w.host, req.tag) == Durable(h, req.tag);
  }

  /** A removal, or a re-adding to an external runtime, that fails with an error which reads like "not
      found", counts as reverted; while the server is authorized it is not so exactly when that was
      mistaken. */
  lemma NotFoundCountsAsReverted(h: Host, u: Undo, o: Outcome)
    requires !(h.embedded && u.original.Some?) && h.authorized && h.running && !o.ok && o.missing
    ensures RevertDone(h, u, o)
    ensures Live(Revert(h, u, o), u.tag) == u.original <==> !Mistaken(h, u.tag, u.original, o)
  {
  }

  /** A removal in a recovery counts as done in the same way. Where the decisions cannot be written
      then, a ready record is left, about which the runtime agrees exactly when the call was not
      mistaken. */
  lemma NotFoundCountsAsConverged(h: Host, tag: string, o: Outcome, end: Outcome, env: Env)
    requires SoundLedger(h.ledger) && h.ledger.loaded && QuietFiles(h) && h.authorized && h.running
    requires RecordOfInUse(h, tag) && Durable(h, tag).None? && !o.ok && o.missing && end.ok && end.write.FailedBefore?
    ensures var v := Go(h, Converging({tag}), tag, o, env);
            var u := Go(v.host, Guarding, "", end, env);
            var r := Go(u.host, Resolving, "", end, env);
            && v.at == Converging({}) && u.at == Resolving && r.at.Idle? && r.host.ledger.ready && Pends(r.host, tag)
            && (Agreed(r.host, tag) <==> !Mistaken(h, tag, None, o))
  {
    ConvergeTurns(h, {tag}, tag, o, env);
    assert {tag} - {tag} == {};
    ReadyAndPending(Removed(h, tag, o), end, env);
  }

  /** The firewall has been seen to, and the decisions cannot be written. */
  lemma ReadyAndPending(h: Host, end: Outcome, env: Env)
    requires end.ok && end.write.FailedBefore?
    ensures var ready := h.(ledger := h.ledger.(ready := true));
            Go(h, Guarding, "", end, env) == World(ready, Resolving) && Go(ready, Resolving, "", end, env) == World(ready, Idle)
  {
  }
}

/** While the server is not authorized, no managed inbound of an embedded Xray comes alive. */
module FenceSuspension {
  import opened Json
  import opened InboundConfig
  import opened Fences
  import opened FenceMachine
  import opened FenceSafety
  import opened Writes

  predicate Owned(h: Host, tag: string)
  {
    ManagedState(tag, At(h.ledger.sidecar, tag))
  }

  ghost predicate Suspended(h: Host)
  {
    && h.embedded && !h.authorized
    && forall tag: string :: Owned(h, tag) ==> tag !in h.runtime
  }

  lemma OwnedIsManaged(h: Host, tag: string)
    requires SoundLedger(h.ledger)
    ensures Owned(h, tag) <==> Managed(h, tag)
    ensures Owned(h, tag) <==> tag in ManagedTags(h)
  {
    LedgerAgrees(h.ledger, tag);
  }

  /** A denial that could take every running managed inbound out of the runtime. */
  lemma DenialSuspends(h: Host, failing: map<string, Left>)
    requires SoundLedger(h.ledger) && h.embedded
    requires forall tag :: tag in failing && tag in h.runtime ==> failing[tag].Gone?
    ensures Suspended(Denied(h, failing))
  {
    var g := Denied(h, failing);
    forall tag: string | Owned(g, tag) ensures tag !in g.runtime {
      OwnedIsManaged(h, tag);
    }
  }

  /** Nothing that only another authorization would bring. */
  predicate WithoutGrant(e: Event)
  {
    !e.Granting? && (e.Crashing? ==> !e.authorized)
  }

  /** The runtime gains no inbound but one that is not owned, and no tag becomes owned. */
  ghost predicate Calmer(h: Host, g: Host)
  {
    && g.embedded == h.embedded && g.authorized == h.authorized
    && (forall tag: string :: Owned(g, tag) ==> Owned(h, tag))
    && (forall tag: string :: tag in g.runtime && tag !in h.runtime ==> !Owned(h, tag))
  }

  lemma MatchedCalm(h: Host, tag: string, inbound: Option<Fields>, o: Outcome)
    requires SoundLedger(h.ledger) && !h.authorized
    ensures Calmer(h, Matched(h, tag, inbound, o))
  {
    OwnedIsManaged(h, tag);
  }

  lemma GoCalm(w: World, pick: string, o: Outcome, env: Env)
    requires Safe(w) && w.host.embedded && !w.host.authorized
    ensures Calmer(w.host, Go(w.host, w.at, pick, o, env).host)
  {
    var h := w.host;
    var g := Go(h, w.at, pick, o, env).host;
    match w.at
    case Persisting(a) => assert g == h.(disk := g.disk);
    case Restoring(u) => assert g == h.(disk := g.disk);
    case Erasing(r) => assert g == h.(disk := g.disk);
    case Activating(a) => LedgerAgrees(h.ledger, a.tag);
    case Reverting(u, _) => MatchedCalm(h, u.tag, u.original, o);
    case Resealing(u, _, _) => LoadedSafe(h);
    case Converging(todo) => ConvergeCalm(h, todo, pick, o, env);
    case Resolving => ResolveCalm(h, h.ledger, o.write, env);
    case Completing(r) => CompleteCalm(h, r, o.write);
    case _ =>
  }

  lemma ConvergeCalm(h: Host, todo: set<string>, tag: string, o: Outcome, env: Env)
    requires SoundLedger(h.ledger) && !h.authorized
    ensures Calmer(h, Converge(h, todo, tag, o, env).host)
  {
    if IsPending(h.ledger.states, tag) {
      var actual := ActualInbound(h.disk, tag, h.ledger.states[tag].pending.value, env.digest);
      if actual.Actual? {
        MatchedCalm(h, tag, actual.inbound, o);
      }
    }
  }

  lemma ResolveCalm(h: Host, l: Ledger, w: Write, env: Env)
    requires SoundLedger(l) && l.loaded && l.sidecar == h.ledger.sidecar
    ensures Calmer(h, h.(ledger := AfterResolve(l, h.disk, env.digest, w)))
  {
    var g := h.(ledger := AfterResolve(l, h.disk, env.digest, w));
    forall tag: string | Owned(g, tag) ensures Owned(h, tag) {
      ResolveRecords(l, h.disk, env.digest, w, tag);
      assert SoundState(At(l.sidecar, tag));
    }
  }

  lemma CompleteCalm(h: Host, r: Removal, w: Write)
    requires SoundLedger(h.ledger) && RemovalHolds(h, r)
    ensures Calmer(h, h.(ledger := AfterCompleteRemoval(h.ledger, r.tag, r.id, w)))
  {
    var g := h.(ledger := AfterCompleteRemoval(h.ledger, r.tag, r.id, w));
    forall tag: string | Owned(g, tag) ensures Owned(h, tag) {
      LedgerAgrees(h.ledger, tag);
      var candidate := Unowned(h.ledger.states, r.tag);
      assert At(OnFile(candidate), tag) == At(candidate, tag);
    }
  }

  lemma StartRemoveCalm(h: Host, tag: string, id: string, w: Write)
    requires SoundLedger(h.ledger) && Quiescent(h)
    ensures Calmer(h, StartRemove(h, tag, id, w).host)
  {
    var g := StartRemove(h, tag, id, w).host;
    CancelSafe(h.ledger, tag, id, w);
    assert g == h.(ledger := g.ledger);
    forall t: string | Owned(g, t) ensures Owned(h, t) {
      LedgerAgrees(g.ledger, t);
      assert At(g.ledger.sidecar, t).pending.None?;
    }
  }

  /** Starting Xray again loads everything but the managed inbounds. */
  lemma StartedSuspended(h: Host, withheld: set<string>, up: bool)
    requires SoundLedger(h.ledger) && h.embedded && !h.authorized
    ensures Suspended(Started(h, withheld, up))
  {
    var g := Started(h, withheld, up);
    forall tag: string | Owned(g, tag) ensures tag !in g.runtime {
      OwnedIsManaged(h, tag);
    }
  }

  lemma EditCalm(h: Host, e: Event)
    requires SoundLedger(h.ledger) && !h.authorized && e.Editing?
    ensures Calmer(h, Replaced(WithConfig(h, h.disk.path, Some(e.config), e.o.write), e.edited, e.inbound, e.o))
  {
    var g := WithConfig(h, h.disk.path, Some(e.config), e.o.write);
    MatchedCalm(g, e.edited, Some(e.inbound), e.o);
    assert forall tag: string :: Owned(g, tag) == Owned(h, tag);
  }

  lemma BeginSuspended(w: World, e: Event, env: Env)
    requires Safe(w) && w.at.Idle? && Suspended(w.host) && WithoutGrant(e) && !e.Step? && !e.Outside? && !e.Crashing?
    ensures Suspended(Begin(w.host, e, env).host)
  {
    var h := w.host;
    LoadedSafe(h);
    match e
    case Ensuring(write) =>
      if Loaded(h.ledger).ready {
        ResolveCalm(h, Loaded(h.ledger), write, env);
      }
    case Removing(tag, id, write) => if Quiescent(h) { StartRemoveCalm(h, tag, id, write); }
    case Editing(_, _, _, _) => if Quiescent(h) { EditCalm(h, e); }
    case Starting(withheld, up, _) => StartedSuspended(h, withheld, up);
    case Denying(failing) => assert forall tag: string :: Owned(Denied(h, failing), tag) == Owned(h, tag);
    case _ =>
  }

  lemma SuspensionStep(w: World, e: Event, env: Env)
    requires Safe(w) && Suspended(w.host) && WithoutGrant(e)
    ensures Suspended(Next(w, e, env).host)
  {
    if e.Step? {
      GoCalm(w, e.tag, e.o, env);
    } else if w.at.Idle? && !e.Outside? && !e.Crashing? {
      BeginSuspended(w, e, env);
    }
  }

  /** From a successful denial until the next grant no run of adds, removes, edits, rollbacks,
      recoveries, restarts and crashes makes an owned inbound active. */
  lemma {:induction false} SuspensionHolds(w: World, events: seq<Event>, env: Env)
    requires Safe(w) && Suspended(w.host) && forall e :: e in events ==> WithoutGrant(e)
    ensures Safe(Run(w, events, env)) && Suspended(Run(w, events, env).host)
  {
    if events != [] {
      var init, last := events[..|events| - 1], events[|events| - 1];
      SuspensionHolds(w, init, env);
      EveryStepSane(Run(w, init, env), last, env);
      SuspensionStep(Run(w, init, env), last, env);
    }
  }

  lemma DenialSpares(h: Host, failing: map<string, Left>, tag: string)
    requires SoundLedger(h.ledger) && !Owned(h, tag)
    ensures Live(Denied(h, failing), tag) == Live(h, tag)
  {
    OwnedIsManaged(h, tag);
  }

  lemma ReenablingSpares(h: Host, enabled: string, mapped: bool, o: Outcome, tag: string)
    requires SoundLedger(h.ledger) && !Owned(h, tag) && Managed(h, enabled)
    ensures Live(Reenabled(h, enabled, mapped, o), tag) == Live(h, tag)
  {
    OwnedIsManaged(h, enabled);
  }

  /** Neither denying nor granting touches a tag that is not managed. */
  lemma UnownedUntouched(h: Host, failing: map<string, Left>, enabled: string, mapped: bool, o: Outcome, env: Env, tag: string)
    requires SoundLedger(h.ledger) && !Owned(h, tag)
    ensures Live(Denied(h, failing), tag) == Live(h, tag)
    ensures Live(Recover(h.(authorized := true), env).host, tag) == Live(h, tag)
    ensures Managed(h, enabled) ==> Live(Reenabled(h, enabled, mapped, o), tag) == Live(h, tag)
  {
    DenialSpares(h, failing, tag);
    if Managed(h, enabled) {
      ReenablingSpares(h, enabled, mapped, o, tag);
    }
  }

  /** An external Xray has no such protection: rolling back a failed remove of an owned inbound adds
      it back, exactly when the call gets through. */
  lemma RollbackRevives(h: Host, removal: Removal, restored: bool, o: Outcome)
    requires SoundLedger(h.ledger) && RemovalHolds(h, removal) && !h.authorized && h.running
    requires Owned(h, removal.tag) && removal.tag !in h.runtime
    ensures var u := UndoOfRemoval(removal);
            && Safe(World(h, Reverting(u, restored)))
            && (removal.tag in Revert(h, u, o).runtime <==>
                  !h.embedded && removal.original.Some? && (o.ok || o.left.There?))
  {
    OwnedIsManaged(h, removal.tag);
  }
}

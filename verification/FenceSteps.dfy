/** The order in which the agent's flows go through their points, and what each step touches. */
module FenceSteps {
  import opened Json
  import opened InboundConfig
  import opened Fences
  import opened FenceMachine
  import opened Writes

  // ----- no step of a flow is left out -----

  /** The points of an add are reached one after the other: the record and the request first, then the
      file, then the firewall, then the runtime. */
  ghost predicate AddInOrder(w: World, e: Event, at: Point, env: Env)
  {
    match at
    case Unreserving(txn) =>
      e.Adding? && w.at == Idle && e.w == FailedAfter && e.req.mutationId != "" && txn.tag == e.req.tag && txn.owner == e.req.mutationId
    case Persisting(a) =>
      && e.Adding? && w.at == Idle && a.tag == e.req.tag && a.requested == e.req.inbound
      && (e.req.mutationId != "" ==> e.w == Done && a.txn.Some? && a.txn.value.owner == e.req.mutationId)
    case Sealing(a) =>
      && e.Step? && e.o.write == Done && w.at.Persisting? && w.at.add.path in w.host.disk.configs
      && a == w.at.add.(built := a.built) && (w.host.embedded ==> a == w.at.add)
    case Activating(a) => e.Step? && e.o.ok && w.at == Sealing(a)
    case Committing(a) => e.Step? && e.o.ok && w.host.running && w.at == Activating(a)
    case _ => true
  }

  /** A rollback begins where a step of an add or a remove fails, with what that one remembers. */
  ghost predicate GaveUp(w: World, o: Outcome, u: Undo)
  {
    match w.at
    case Persisting(a) => u == Undo(true, a.txn, a.tag, a.path, a.snapshot, a.original) && (o.write != Done || a.path !in w.host.disk.configs)
    case Sealing(a) => u == Undo(true, a.txn, a.tag, a.path, a.snapshot, a.original) && !o.ok
    case Activating(a) => u == Undo(true, a.txn, a.tag, a.path, a.snapshot, a.original) && !(o.ok && w.host.running)
    case Erasing(r) => u == Undo(false, None, r.tag, r.path, r.snapshot, r.original) && (o.write != Done || r.path !in w.host.disk.configs)
    case Unsealing(r) => u == Undo(false, None, r.tag, r.path, r.snapshot, r.original) && !o.ok
    case _ => false
  }

  /** It restores the file, then the runtime, then the firewall, and takes the record back only when
      all three have worked. */
  ghost predicate RollbackInOrder(w: World, e: Event, at: Point)
  {
    match at
    case Restoring(u) => e.Step? && GaveUp(w, e.o, u)
    case Reverting(u, restored) => e.Step? && w.at == Restoring(u) && (restored <==> e.o.write == Done)
    case Resealing(u, restored, reverted) =>
      && e.Step? && w.at == Reverting(u, restored)
      && (reverted ==> (e.o.ok && w.host.running) || e.o.missing || (w.host.embedded && u.original != None && Deferred(w.host, u.tag)))
    case Releasing(txn) => e.Step? && e.o.ok && exists u :: w.at == Resealing(u, true, true) && u.txn == Some(txn)
    case _ => true
  }

  /** A recovery brings the runtime of every pending tag to what the files say, then checks the
      firewall, and only then resolves the records. */
  ghost predicate RecoveryInOrder(w: World, e: Event, at: Point, env: Env)
  {
    match at
    case Converging(todo) =>
      || (e.Step? && w.at.Converging? && e.tag in w.at.todo && todo == w.at.todo - {e.tag})
      || forall tag :: tag in todo <==> IsPending(Loaded(w.host.ledger).states, tag)
    case Guarding => e.Step? && w.at == Converging({})
    case Resolving => e.Step? && e.o.ok && w.at == Guarding
    case _ => true
  }

  /** A remove takes the inbound out of the runtime, then out of the file, then sees to the firewall,
      and clears the owner last. */
  ghost predicate RemoveInOrder(w: World, e: Event, at: Point)
  {
    match at
    case Detaching(r) =>
      && e.Removing? && w.at == Idle && r.tag == e.removed && r.id == e.id && r.tag != ""
      && (r.id == "" ==> At(w.host.ledger.states, r.tag).owner == "")
      && (r.id != "" ==> e.w == Done && At(w.host.ledger.states, r.tag).owner in {"", r.id})
    case Erasing(r) => e.Step? && w.at == Detaching(r) && ((e.o.ok && w.host.running) || e.o.missing)
    case Unsealing(r) => e.Step? && e.o.write == Done && w.at == Erasing(r) && r.path in w.host.disk.configs
    case Completing(r) => e.Step? && e.o.ok && w.at == Unsealing(r)
    case _ => true
  }

  ghost predicate InOrder(w: World, e: Event, at: Point, env: Env)
  {
    AddInOrder(w, e, at, env) && RollbackInOrder(w, e, at) && RecoveryInOrder(w, e, at, env) && RemoveInOrder(w, e, at)
  }

  /** Whatever happens, a point is reached from the one before it only, and only if that step worked. */
  lemma StepsInOrder(w: World, e: Event, env: Env)
    ensures Next(w, e, env).at != w.at ==> InOrder(w, e, Next(w, e, env).at, env)
  {
    if e.Step? {
      GoInOrder(w, e, env);
    } else if w.at.Idle? && !e.Crashing? && !e.Outside? {
      BeginInOrder(w, e, env);
    }
  }

  lemma GoInOrder(w: World, e: Event, env: Env)
    requires e.Step?
    ensures Go(w.host, w.at, e.tag, e.o, env).at != w.at ==> InOrder(w, e, Go(w.host, w.at, e.tag, e.o, env).at, env)
  {
  }

  lemma AddBeginsInOrder(w: World, e: Event, env: Env)
    requires w.at.Idle? && e.Adding?
    ensures StartAdd(w.host, e.req, e.w, env).at != w.at ==> InOrder(w, e, StartAdd(w.host, e.req, e.w, env).at, env)
  {
  }

  lemma RecoveryBeginsInOrder(h: Host, env: Env)
    ensures match Recover(h, env).at
            case Idle => true
            case Converging(todo) => forall tag :: tag in todo <==> IsPending(Loaded(h.ledger).states, tag)
            case _ => false
  {
  }

  lemma BeginInOrder(w: World, e: Event, env: Env)
    requires w.at.Idle? && !e.Step? && !e.Crashing? && !e.Outside?
    ensures Begin(w.host, e, env).at != w.at ==> InOrder(w, e, Begin(w.host, e, env).at, env)
  {
    match e
    case Adding(_, _) => AddBeginsInOrder(w, e, env);
    case Recovering => RecoveryBeginsInOrder(w.host, env);
    case Granting => RecoveryBeginsInOrder(w.host.(authorized := true), env);
    case Starting(_, _, _) => RecoveryBeginsInOrder(Started(w.host, e.withheld, e.up), env);
    case _ =>
  }

  // ----- what the runtime makes of a call -----

  /** A removal takes the inbound out of a running Xray when it works, or when it fails half way. It
      counts as done then, or when the error reads like "not found". */
  lemma RemovedMeans(h: Host, tag: string, o: Outcome)
    ensures var gone := h.running && (o.ok || o.left == Gone);
            Removed(h, tag, o) == if gone then h.(runtime := map t | t in h.runtime && t != tag :: h.runtime[t]) else h
    ensures RemoveDone(h, o) <==> (h.running && o.ok) || o.missing
  {
    assert h.runtime - {tag} == map t | t in h.runtime && t != tag :: h.runtime[t];
  }

  /** An addition puts the inbound in the place of the one that is there; a failed one may do so all the
      same, or leave none. */
  lemma AddedMeans(h: Host, tag: string, inbound: Fields, o: Outcome)
    ensures h.running && (o.ok || o.left == There) ==> Added(h, tag, inbound, o) == h.(runtime := h.runtime[tag := inbound])
    ensures h.running && !o.ok && o.left == Gone ==> Added(h, tag, inbound, o) == h.(runtime := h.runtime - {tag})
    ensures !h.running || (!o.ok && o.left == AsBefore) ==> Added(h, tag, inbound, o) == h
    ensures AddDone(h, o) <==> h.running && o.ok
  {
  }

  /** Every tag but "api" that has an owner or a pending add is managed. While the server is not
      authorized, such an inbound is not put into the runtime. */
  lemma MatchedMeans(h: Host, tag: string, inbound: Option<Fields>, o: Outcome)
    ensures var states := if h.ledger.loaded then h.ledger.states else h.ledger.sidecar;
            var managed := tag !in {"", "api"} && tag in states && (states[tag].owner != "" || states[tag].pending != None);
            && (Managed(h, tag) <==> managed)
            && (inbound == None ==> Matched(h, tag, inbound, o) == Removed(h, tag, o) && (MatchDone(h, tag, inbound, o) <==> RemoveDone(h, o)))
            && (inbound != None && !h.authorized && managed ==> Matched(h, tag, inbound, o) == h && MatchDone(h, tag, inbound, o))
            && (inbound != None && !(!h.authorized && managed) ==>
                  Matched(h, tag, inbound, o) == Added(h, tag, inbound.value, o) && (MatchDone(h, tag, inbound, o) <==> AddDone(h, o)))
  {
  }

  // ----- what the file is left with -----

  /** Writing an inbound leaves it as the only one of its tag, with the clients of the later copies; the
      copies of every other tag are folded into their first. */
  lemma UpsertMeans(c: Config, tag: string, inbound: Fields, env: Env, t: string)
    requires forall x :: x in c ==> c[x] != []
    ensures var after := Upsert(c, tag, inbound, env);
            && after.Keys == c.Keys + {tag}
            && after[tag] == [MergedAll(inbound, if tag in c then c[tag][1..] else [], env.sprint)]
            && (t in c && t != tag ==> after[t] == [MergedAll(c[t][0], c[t][1..], env.sprint)])
  {
  }

  // ----- what a step touches -----

  /** Of an add, one step writes the file, one calls the runtime, and one ends the record. */
  lemma AddTouches(h: Host, a: Add, tag: string, o: Outcome, env: Env)
    ensures Go(h, Sealing(a), tag, o, env).host == h
    ensures Go(h, Activating(a), tag, o, env).host == Added(h, a.tag, a.built, o)
    ensures a.path !in h.disk.configs || o.write == FailedBefore ==> Go(h, Persisting(a), tag, o, env).host == h
    ensures a.path in h.disk.configs && o.write != FailedBefore ==>
              Go(h, Persisting(a), tag, o, env).host
              == h.(disk := Disk(h.disk.configs[a.path := Upsert(h.disk.configs[a.path], a.tag, a.inbound, env)], h.disk.path))
    ensures a.txn == None ==> Go(h, Committing(a), tag, o, env) == World(h, Idle)
    ensures a.txn != None ==> Go(h, Committing(a), tag, o, env)
                              == World(h.(ledger := AfterCommit(h.ledger, a.txn.value, h.disk, env.digest, o.write)), Idle)
    ensures var next := Go(h, Persisting(a), tag, o, env).at;
            next.Sealing? && !h.embedded ==>
              next.add.built == MergedAll(a.inbound, Later(h.disk.configs[a.path], a.tag), env.sprint)
  {
  }

  /** A rollback writes the file as it was, or removes it where there was none, puts the inbound back
      that the file had, or takes it out, and last takes the record back. */
  lemma RollbackTouches(h: Host, u: Undo, restored: bool, tag: string, o: Outcome, env: Env)
    ensures o.write == FailedBefore ==> Go(h, Restoring(u), tag, o, env).host == h
    ensures o.write != FailedBefore ==>
              Go(h, Restoring(u), tag, o, env).host == h.(disk := Disk(
                if u.snapshot.Some? then h.disk.configs[u.path := u.snapshot.value] else h.disk.configs - {u.path}, h.disk.path))
    ensures u.original == None || h.embedded ==> Go(h, Reverting(u, restored), tag, o, env).host == Matched(h, u.tag, u.original, o)
    ensures u.original != None && !h.embedded ==>
              Go(h, Reverting(u, restored), tag, o, env).host == Added(h, u.tag, u.original.value, o)
    ensures u.txn != None ==>
              Go(h, Releasing(u.txn.value), tag, o, env)
              == World(h.(ledger := Persisted(h.ledger, PutBack(h.ledger.states, u.txn.value), o.write)), Idle)
  {
  }

  /** The runtime counts as reverted when the call worked, when it was left for later, and, but for
      putting an inbound back into an embedded Xray, when the error reads like "not found". */
  lemma RevertCounts(h: Host, u: Undo, restored: bool, tag: string, o: Outcome, env: Env)
    ensures Go(h, Reverting(u, restored), tag, o, env).at == Resealing(u, restored,
              || (o.ok && h.running)
              || (o.missing && !(h.embedded && u.original != None))
              || (h.embedded && u.original != None && !h.authorized && Managed(h, u.tag)))
  {
  }

  /** A rollback that did not get through leaves the records of an add to a recovery. */
  lemma RollbackEnds(h: Host, u: Undo, restored: bool, reverted: bool, tag: string, o: Outcome, env: Env)
    ensures var v := Go(h, Resealing(u, restored, reverted), tag, o, env);
            && (restored && reverted && o.ok ==> v.host == h && v.at == if u.txn.Some? then Releasing(u.txn.value) else Idle)
            && (!(restored && reverted && o.ok) && u.isAdd ==> v == Recover(h, env))
            && (!(restored && reverted && o.ok) && !u.isAdd ==> v == World(h, Idle))
  {
  }

  /** A recovery begins with the records of the sidecar in memory, not ready until the runtime follows
      the files; it goes on only when all of them can be decided. */
  lemma RecoveryBegins(h: Host, env: Env)
    ensures var l := if h.ledger.loaded then h.ledger else Ledger(true, h.ledger.sidecar, h.ledger.ready, h.ledger.sidecar);
            var v := Recover(h, env);
            var pending := exists tag :: tag in l.states && l.states[tag].pending != None;
            && v.host == h.(ledger := Ledger(true, l.states, !pending, l.sidecar))
            && (v.at != Idle <==> pending && AllDecided(l.states, h.disk, env.digest))
  {
  }

  /** In between, a tag is brought to the inbound on which the files agree; it is left alone, and the
      recovery given up, when they do not, or when the limiter does not know the owners of its peers. */
  lemma RecoveryTouches(h: Host, todo: set<string>, tag: string, o: Outcome, env: Env)
    requires tag in todo && tag in h.ledger.states && h.ledger.states[tag].pending != None
    ensures var v := Go(h, Converging(todo), tag, o, env);
            var actual := ActualInbound(h.disk, tag, h.ledger.states[tag].pending.value, env.digest);
            && (actual == Undecided || (actual.inbound != None && !o.mapped) ==> v == World(h, Idle))
            && (actual != Undecided && (actual.inbound == None || o.mapped) ==>
                  v == World(Matched(h, tag, actual.inbound, o), if MatchDone(h, tag, actual.inbound, o) then Converging(todo - {tag}) else Idle))
  {
  }

  /** Tags are taken one by one, in any order; what is no longer pending is passed over. */
  lemma RecoveryGoesOn(h: Host, todo: set<string>, tag: string, o: Outcome, env: Env)
    ensures todo == {} ==> Go(h, Converging(todo), tag, o, env) == World(h, Guarding)
    ensures todo != {} && tag !in todo ==> Go(h, Converging(todo), tag, o, env) == World(h, Converging(todo))
    ensures tag in todo && !(tag in h.ledger.states && h.ledger.states[tag].pending != None) ==>
              Go(h, Converging(todo), tag, o, env) == World(h, Converging(todo - {tag}))
  {
  }

  lemma RecoveryEnds(h: Host, tag: string, o: Outcome, env: Env)
    ensures Go(h, Guarding, tag, o, env).host == if o.ok then h.(ledger := h.ledger.(ready := true)) else h
    ensures Go(h, Resolving, tag, o, env) == World(h.(ledger := AfterResolve(h.ledger, h.disk, env.digest, o.write)), Idle)
  {
  }

  /** A remove records its id as cancelled before anything else. */
  lemma RemoveBegins(h: Host, tag: string, id: string, w: Write)
    ensures StartRemove(h, tag, id, w).host == h.(ledger := AfterBeginRemove(h.ledger, tag, id, w))
    ensures StartRemove(h, tag, id, w).at != Idle <==> RemovalOf(h.ledger, tag, id, w) == Proceed && tag != "" && h.disk.path != ""
  {
  }

  /** Then one step each takes the inbound out of the runtime, takes all copies of the tag out of the
      file, and clears the owner. */
  lemma RemoveTouches(h: Host, r: Removal, tag: string, o: Outcome, env: Env)
    ensures Go(h, Detaching(r), tag, o, env) == World(Removed(h, r.tag, o), if RemoveDone(h, o) then Erasing(r) else Idle)
    ensures r.path !in h.disk.configs || o.write == FailedBefore ==> Go(h, Erasing(r), tag, o, env).host == h
    ensures r.path in h.disk.configs && o.write != FailedBefore ==>
              Go(h, Erasing(r), tag, o, env).host
              == h.(disk := Disk(h.disk.configs[r.path := h.disk.configs[r.path] - {r.tag}], h.disk.path))
    ensures Go(h, Unsealing(r), tag, o, env).host == h
    ensures Go(h, Completing(r), tag, o, env) == World(h.(ledger := AfterCompleteRemoval(h.ledger, r.tag, r.id, o.write)), Idle)
  {
  }

  // ----- what else may happen -----

  /** A run takes one event after the other. */
  lemma RunTakesAll(w: World, events: seq<Event>, e: Event, env: Env)
    ensures Run(w, [], env) == w && Run(w, events + [e], env) == Next(Run(w, events, env), e, env)
  {
    assert (events + [e])[..|events|] == events;
  }

  /** A crash loses the fence's memory, and the runtime of an embedded Xray; files stay. */
  lemma CrashForgets(h: Host, authorized: bool)
    ensures var g := Crashed(h, authorized);
            && g.ledger == Ledger(false, map[], false, h.ledger.sidecar) && g.disk == h.disk && g.embedded == h.embedded
            && g.authorized == authorized
            && (h.embedded ==> !g.running && g.runtime == map[])
            && (!h.embedded ==> g.running == h.running && g.runtime == h.runtime)
  {
  }

  /** A start gives the runtime the first copy of every tag of the file, but for those that are withheld
      and, in an embedded Xray that is not authorized, for the managed ones. */
  lemma StartLoads(h: Host, withheld: set<string>, up: bool, tag: string)
    ensures var g := Started(h, withheld, up);
            var works := up && h.disk.path in h.disk.configs;
            var held := tag in withheld || (h.embedded && !h.authorized && Managed(h, tag));
            && (!works ==> g == h.(running := false, runtime := map[]))
            && (works ==>
                  && g == h.(running := true, runtime := g.runtime, ledger := Loaded(h.ledger))
                  && var file := h.disk.configs[h.disk.path];
                  && (tag in g.runtime <==> tag in file && file[tag] != [] && !held)
                  && (tag in g.runtime ==> g.runtime[tag] == file[tag][0]))
  {
  }

  /** A denial takes every managed inbound out of the runtime, but for those whose removal failed and
      left them there. */
  lemma DenialTakes(h: Host, failing: map<string, Left>, tag: string)
    ensures var g := Denied(h, failing);
            && g == h.(authorized := false, ledger := Loaded(h.ledger), runtime := g.runtime)
            && (tag in g.runtime <==> tag in h.runtime && !(Managed(h, tag) && (tag !in failing || failing[tag] == Gone)))
            && (tag in g.runtime ==> g.runtime[tag] == h.runtime[tag])
  {
  }

  /** A managed inbound that is not live comes back as the file has it; one without a limiter mapping is
      taken out instead. */
  lemma ReenablingGives(h: Host, tag: string, mapped: bool, o: Outcome)
    ensures var g := Reenabled(h, tag, mapped, o);
            var copies := if h.disk.path in h.disk.configs && tag in h.disk.configs[h.disk.path] then h.disk.configs[h.disk.path][tag] else [];
            && (!mapped ==> g == if tag in h.runtime then Removed(h, tag, o) else h)
            && (mapped && (tag in h.runtime || copies == []) ==> g == h)
            && (mapped && tag !in h.runtime && copies != [] ==> g == Added(h, tag, copies[0], o))
  {
  }

  /** Requests wait for the lock; what they do first, and when they are turned down. */
  lemma RequestsBegin(w: World, e: Event, env: Env)
    requires !e.Step? && !e.Crashing? && !e.Outside?
    ensures w.at != Idle ==> Next(w, e, env) == w
    ensures w.at == Idle ==>
              var quiet := w.host.ledger.loaded && forall tag :: tag in w.host.ledger.states ==> w.host.ledger.states[tag].pending == None;
              && (e.Ensuring? ==>
                    Next(w, e, env) == World(w.host.(ledger := AfterEnsure(w.host.ledger, w.host.disk, env.digest, e.w)), Idle))
              && ((e.Removing? || e.Editing? || e.Reenabling?) && !quiet ==> Next(w, e, env) == w)
              && (e.Removing? && quiet ==> Next(w, e, env) == StartRemove(w.host, e.removed, e.id, e.w))
              && (e.Stopping? ==> Next(w, e, env) == World(w.host.(running := false, runtime := map[]), Idle))
              && (e.Denying? ==> Next(w, e, env) == World(Denied(w.host, e.failing), Idle))
              && (e.Granting? ==> Next(w, e, env) == Recover(w.host.(authorized := true), env))
              && (e.Recovering? ==> Next(w, e, env) == Recover(w.host, env))
  {
  }

  /** A start that worked is followed by a recovery when its caller asks for one, or when records that
      were ready turn up pending again while the server is authorized. */
  lemma StartRecovers(w: World, e: Event, env: Env)
    requires w.at == Idle && e.Starting?
    ensures var g := Started(w.host, e.withheld, e.up);
            var quiet := w.host.ledger.loaded && forall tag :: tag in w.host.ledger.states ==> w.host.ledger.states[tag].pending == None;
            Next(w, e, env) == if g.running && (e.recovering || (w.host.authorized && w.host.ledger.ready && !quiet))
                               then Recover(g, env) else World(g, Idle)
  {
  }

  /** An edit writes the file it is given and replaces the inbound in the runtime; a re-enabling asks
      for an authorized server and a managed tag. */
  lemma EditsBegin(w: World, e: Event, env: Env)
    requires w.at == Idle && Quiescent(w.host)
    ensures e.Editing? ==>
              var h := if e.o.write == FailedBefore then w.host
                       else w.host.(disk := Disk(w.host.disk.configs[w.host.disk.path := e.config], w.host.disk.path));
              Next(w, e, env) == World(Matched(h, e.edited, Some(e.inbound), e.o), Idle)
    ensures e.Reenabling? ==>
              Next(w, e, env) == if w.host.authorized && Managed(w.host, e.enabled)
                                 then World(Reenabled(w.host, e.enabled, e.mapped, e.o), Idle) else w
  {
  }
}

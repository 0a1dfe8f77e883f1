/** The agent as a machine of small steps: between any two of them it may crash. Every write and
    every call into the runtime carries its outcome. */
module FenceMachine {
  import opened Json
  import opened InboundConfig
  import opened Fences
  import opened Writes

  /** A failed runtime call leaves the inbound as it was, takes it away, or adds it all the same.
      `missing`: its error reads like "not found". `mapped`: the limiter knows the owners of the
      addresses of a WireGuard inbound. */
  datatype Left = AsBefore | Gone | There

  datatype Outcome = Outcome(write: Write, ok: bool, missing: bool, left: Left, mapped: bool)

  datatype Env = Env(digest: Fields -> string, sprint: Json -> string)

  /** Everything but the point the agent has reached: its memory, its files and the Xray runtime. */
  datatype Host = Host(
    embedded: bool,
    authorized: bool,
    running: bool,
    runtime: map<string, Fields>,
    ledger: Ledger,
    disk: Disk)

  /** An add: the inbound of the request, that inbound as it was prepared against the snapshot, and
      what the runtime is to get. */
  datatype Add = Add(
    txn: Option<Transaction>,
    tag: string,
    path: string,
    snapshot: Option<Config>,
    original: Option<Fields>,
    requested: Fields,
    inbound: Fields,
    built: Fields)

  datatype Removal = Removal(
    tag: string,
    id: string,
    path: string,
    snapshot: Option<Config>,
    original: Option<Fields>)

  /** What a rollback restores, and whether an add or a remove asked for it. */
  datatype Undo = Undo(
    isAdd: bool,
    txn: Option<Transaction>,
    tag: string,
    path: string,
    snapshot: Option<Config>,
    original: Option<Fields>)

  /** The point the agent has reached while it holds its lock. */
  datatype Point =
    | Idle
    // an add: the record is written; then the config, the firewall, the runtime, the commit
    | Unreserving(txn: Transaction)
    | Persisting(add: Add)
    | Sealing(add: Add)
    | Activating(add: Add)
    | Committing(add: Add)
    // a rollback: the config, the runtime, the firewall, the record
    | Restoring(undo: Undo)
    | Reverting(undo: Undo, restored: bool)
    | Resealing(undo: Undo, restored: bool, reverted: bool)
    | Releasing(txn: Transaction)
    // a recovery: the runtime of each pending tag, the firewall, the owners
    | Converging(todo: set<string>)
    | Guarding
    | Resolving
    // a remove: the runtime, the config, the firewall and limiter, the owner
    | Detaching(removal: Removal)
    | Erasing(removal: Removal)
    | Unsealing(removal: Removal)
    | Completing(removal: Removal)

  datatype World = World(host: Host, at: Point)

  // ----- the runtime -----

  predicate ManagedState(tag: string, st: State)
  {
    tag != "" && tag != "api" && (st.owner != "" || st.pending.Some?)
  }

  predicate Managed(h: Host, tag: string)
  {
    ManagedState(tag, At(Loaded(h.ledger).states, tag))
  }

  function WithRuntime(h: Host, tag: string, inbound: Option<Fields>): Host
  {
    if !h.running then h
    else if inbound.None? then h.(runtime := h.runtime - {tag})
    else h.(runtime := h.runtime[tag := inbound.value])
  }

  function Live(h: Host, tag: string): Option<Fields>
  {
    if tag in h.runtime then Some(h.runtime[tag]) else None
  }

  function Removed(h: Host, tag: string, o: Outcome): Host
  {
    if o.ok || o.left.Gone? then WithRuntime(h, tag, None) else h
  }

  /** A removal that fails with an error like "not found" counts as done, whatever it left there. */
  predicate RemoveDone(h: Host, o: Outcome)
  {
    (o.ok && h.running) || o.missing
  }

  function Added(h: Host, tag: string, inbound: Fields, o: Outcome): Host
  {
    if o.ok || o.left.There? then WithRuntime(h, tag, Some(inbound))
    else if o.left.Gone? then WithRuntime(h, tag, None)
    else h
  }

  predicate AddDone(h: Host, o: Outcome)
  {
    o.ok && h.running
  }

  /** While the server is not authorized, replacing a managed inbound is left for later. */
  predicate Deferred(h: Host, tag: string)
  {
    !h.authorized && Managed(h, tag)
  }

  function Replaced(h: Host, tag: string, inbound: Fields, o: Outcome): Host
  {
    if Deferred(h, tag) then h else Added(h, tag, inbound, o)
  }

  predicate ReplaceDone(h: Host, tag: string, o: Outcome)
  {
    Deferred(h, tag) || AddDone(h, o)
  }

  /** Brings the runtime of a tag to an inbound, or to its absence. */
  function Matched(h: Host, tag: string, inbound: Option<Fields>, o: Outcome): Host
  {
    if inbound.Some? then Replaced(h, tag, inbound.value, o) else Removed(h, tag, o)
  }

  predicate MatchDone(h: Host, tag: string, inbound: Option<Fields>, o: Outcome)
  {
    if inbound.Some? then ReplaceDone(h, tag, o) else RemoveDone(h, o)
  }

  // ----- the configuration file -----

  function ConfigAt(h: Host, path: string): Option<Config>
  {
    if path in h.disk.configs then Some(h.disk.configs[path]) else None
  }

  function WithConfig(h: Host, path: string, config: Option<Config>, w: Write): Host
  {
    if !Applied(w) then h
    else if config.None? then h.(disk := h.disk.(configs := h.disk.configs - {path}))
    else h.(disk := h.disk.(configs := h.disk.configs[path := config.value]))
  }

  /** Replacing an inbound folds the copies of every tag together. */
  ghost function Upsert(c: Config, tag: string, inbound: Fields, env: Env): Config
  {
    var folded := map t | t in c :: Folded(c[t], env.sprint);
    folded[tag := [Prepared(c, tag, inbound, env)]]
  }

  /** The copies of a tag behind its first, whose clients an inbound takes over. */
  function Later(c: Config, tag: string): seq<Fields>
  {
    if Copies(c, tag) == [] then [] else Copies(c, tag)[1..]
  }

  ghost function Prepared(c: Config, tag: string, inbound: Fields, env: Env): Fields
  {
    MergedAll(inbound, Later(c, tag), env.sprint)
  }

  function Snapshot(h: Host): Option<Config>
  {
    ConfigAt(h, h.disk.path)
  }

  function Original(snapshot: Option<Config>, tag: string): Option<Fields>
  {
    if snapshot.None? then None else First(snapshot.value, tag)
  }

  // ----- the steps of an add -----

  ghost function AddOf(h: Host, req: Request, env: Env): Add
  {
    var snapshot := Snapshot(h);
    var inbound := Prepared(if snapshot.Some? then snapshot.value else map[], req.tag, req.inbound, env);
    var txn := if req.mutationId == "" then None else Some(TransactionOf(h.ledger.states, req));
    Add(txn, req.tag, h.disk.path, snapshot, Original(snapshot, req.tag), req.inbound, inbound, inbound)
  }

  ghost predicate Turned(h: Host, req: Request, env: Env)
  {
    || !h.ledger.loaded || !NoPending(h.ledger.states)
    || (!h.authorized && req.mutationId != "")
    || req.tag == "" || h.disk.path == ""
    || Rejected(At(h.ledger.states, req.tag), PreparedRequest(h, req, env), h.disk.path, AddOf(h, req, env).original, env.digest)
  }

  ghost function PreparedRequest(h: Host, req: Request, env: Env): Request
  {
    req.(inbound := AddOf(h, req, env).inbound)
  }

  ghost function StartAdd(h: Host, req: Request, w: Write, env: Env): World
  {
    var add := AddOf(h, req, env);
    if Turned(h, req, env) then World(h, Idle)
    else if add.txn.None? then World(h, Persisting(add))
    else
      var reserved := Reserved(h.ledger.states, PreparedRequest(h, req, env), h.disk.path, add.original, env.digest);
      var after := h.(ledger := Persisted(h.ledger, reserved, w));
      World(after, if w.Done? then Persisting(add) else if w.FailedAfter? then Unreserving(add.txn.value) else Idle)
  }

  function UndoOfAdd(a: Add): Undo
  {
    Undo(true, a.txn, a.tag, a.path, a.snapshot, a.original)
  }

  function UndoOfRemoval(r: Removal): Undo
  {
    Undo(false, None, r.tag, r.path, r.snapshot, r.original)
  }

  /** Writing prepares the inbound again, in place. What an embedded Xray is to get has been built
      before; an external one gets the inbound as it was written. */
  ghost function AfterWriting(h: Host, a: Add, config: Config, env: Env): Add
  {
    if h.embedded then a else a.(built := Prepared(config, a.tag, a.inbound, env))
  }

  ghost function Persist(h: Host, a: Add, o: Outcome, env: Env): World
  {
    var config := ConfigAt(h, a.path);
    if config.None? then World(h, Restoring(UndoOfAdd(a)))
    else
      World(WithConfig(h, a.path, Some(Upsert(config.value, a.tag, a.inbound, env)), o.write),
            if o.write.Done? then Sealing(AfterWriting(h, a, config.value, env)) else Restoring(UndoOfAdd(a)))
  }

  function Activate(h: Host, a: Add, o: Outcome): World
  {
    World(Added(h, a.tag, a.built, o), if AddDone(h, o) then Committing(a) else Restoring(UndoOfAdd(a)))
  }

  function Commit(h: Host, a: Add, o: Outcome, env: Env): World
  {
    World(if a.txn.None? then h else h.(ledger := AfterCommit(h.ledger, a.txn.value, h.disk, env.digest, o.write)), Idle)
  }

  // ----- the steps of a rollback -----

  function Revert(h: Host, u: Undo, o: Outcome): Host
  {
    if h.embedded || u.original.None? then Matched(h, u.tag, u.original, o) else Added(h, u.tag, u.original.value, o)
  }

  /** An external runtime that fails with "not found" counts as reverted, whatever was asked of it. */
  predicate RevertDone(h: Host, u: Undo, o: Outcome)
  {
    if h.embedded || u.original.None? then MatchDone(h, u.tag, u.original, o) else AddDone(h, o) || o.missing
  }

  ghost function Reseal(h: Host, u: Undo, restored: bool, reverted: bool, o: Outcome, env: Env): World
  {
    if restored && reverted && o.ok then World(h, if u.txn.Some? then Releasing(u.txn.value) else Idle)
    else if u.isAdd then Recover(h, env)
    else World(h, Idle)
  }

  // ----- the steps of a recovery -----

  ghost function Recover(h: Host, env: Env): World
  {
    var l := Loaded(h.ledger);
    if NoPending(l.states) then World(h.(ledger := l.(ready := true)), Idle)
    else
      World(h.(ledger := l.(ready := false)),
            if AllDecided(l.states, h.disk, env.digest)
            then Converging(set tag | tag in l.states && l.states[tag].pending.Some?) else Idle)
  }

  function Converge(h: Host, todo: set<string>, tag: string, o: Outcome, env: Env): World
  {
    if todo == {} then World(h, Guarding)
    else if tag !in todo then World(h, Converging(todo))
    else if !IsPending(h.ledger.states, tag) then World(h, Converging(todo - {tag}))
    else
      var actual := ActualInbound(h.disk, tag, h.ledger.states[tag].pending.value, env.digest);
      if actual.Undecided? || (actual.inbound.Some? && !o.mapped) then World(h, Idle)
      else
        World(Matched(h, tag, actual.inbound, o),
              if MatchDone(h, tag, actual.inbound, o) then Converging(todo - {tag}) else Idle)
  }

  // ----- the steps of a remove -----

  function StartRemove(h: Host, tag: string, id: string, w: Write): World
  {
    var after := h.(ledger := AfterBeginRemove(h.ledger, tag, id, w));
    if RemovalOf(h.ledger, tag, id, w).Proceed? && tag != "" && h.disk.path != "" then
      World(after, Detaching(Removal(tag, id, h.disk.path, Snapshot(h), Original(Snapshot(h), tag))))
    else World(after, Idle)
  }

  function Erase(h: Host, r: Removal, o: Outcome): World
  {
    var config := ConfigAt(h, r.path);
    if config.None? then World(h, Restoring(UndoOfRemoval(r)))
    else
      World(WithConfig(h, r.path, Some(config.value - {r.tag}), o.write),
            if o.write.Done? then Unsealing(r) else Restoring(UndoOfRemoval(r)))
  }

  // ----- one step -----

  /** The next step of the work in hand. `tag` picks the inbound a recovery turns to. */
  ghost function Go(h: Host, at: Point, tag: string, o: Outcome, env: Env): World
  {
    match at
    case Idle => World(h, Idle)
    case Unreserving(txn) => World(h.(ledger := Persisted(h.ledger, PutBack(h.ledger.states, txn), o.write)), Idle)
    case Persisting(a) => Persist(h, a, o, env)
    case Sealing(a) => World(h, if o.ok then Activating(a) else Restoring(UndoOfAdd(a)))
    case Activating(a) => Activate(h, a, o)
    case Committing(a) => Commit(h, a, o, env)
    case Restoring(u) => World(WithConfig(h, u.path, u.snapshot, o.write), Reverting(u, o.write.Done?))
    case Reverting(u, restored) => World(Revert(h, u, o), Resealing(u, restored, RevertDone(h, u, o)))
    case Resealing(u, restored, reverted) => Reseal(h, u, restored, reverted, o, env)
    case Releasing(txn) => World(h.(ledger := Persisted(h.ledger, PutBack(h.ledger.states, txn), o.write)), Idle)
    case Converging(todo) => Converge(h, todo, tag, o, env)
    case Guarding =>
      if o.ok then World(h.(ledger := h.ledger.(ready := true)), Resolving) else World(h, Idle)
    case Resolving => World(h.(ledger := AfterResolve(h.ledger, h.disk, env.digest, o.write)), Idle)
    case Detaching(r) => World(Removed(h, r.tag, o), if RemoveDone(h, o) then Erasing(r) else Idle)
    case Erasing(r) => Erase(h, r, o)
    case Unsealing(r) => World(h, if o.ok then Completing(r) else Restoring(UndoOfRemoval(r)))
    case Completing(r) => World(h.(ledger := AfterCompleteRemoval(h.ledger, r.tag, r.id, o.write)), Idle)
  }

  datatype Event =
    | Step(tag: string, o: Outcome)
    // requests; they begin when no other holds the lock
    | Ensuring(w: Write)
    | Adding(req: Request, w: Write)
    | Removing(removed: string, id: string, w: Write)
    | Recovering
    | Editing(edited: string, config: Config, inbound: Fields, o: Outcome)
    | Starting(withheld: set<string>, up: bool, recovering: bool)
    | Stopping
    | Denying(failing: map<string, Left>)
    | Granting
    | Reenabling(enabled: string, mapped: bool, o: Outcome)
    // what may happen at any time
    | Crashing(authorized: bool)
    | Outside(disk: Disk)

  function RuntimeOf(c: Config): map<string, Fields>
  {
    map tag | tag in c && c[tag] != [] :: c[tag][0]
  }

  function ManagedTags(h: Host): set<string>
  {
    set tag | tag in Loaded(h.ledger).states && Managed(h, tag)
  }

  /** Xray loads the configuration file, without the inbounds that are withheld, or fails to start. */
  function Started(h: Host, withheld: set<string>, up: bool): Host
  {
    var config := Snapshot(h);
    if config.None? || !up then h.(running := false, runtime := map[])
    else
      var skipped := withheld + (if h.embedded && !h.authorized then ManagedTags(h) else {});
      h.(running := true, runtime := RuntimeOf(config.value) - skipped, ledger := Loaded(h.ledger))
  }

  /** A start that works goes on to a recovery where its caller asks for one. The callers that do not
      have checked before that nothing pends, once the server is authorized and records are ready. */
  ghost function Start(h: Host, e: Event, env: Env): World
    requires e.Starting?
  {
    var g := Started(h, e.withheld, e.up);
    if g.running && (e.recovering || (h.authorized && h.ledger.ready && !Quiescent(h))) then Recover(g, env) else World(g, Idle)
  }

  /** Takes every managed inbound out of the runtime; a removal that fails may leave it there. */
  function Denied(h: Host, failing: map<string, Left>): Host
  {
    var removed := set tag | tag in ManagedTags(h) && !(tag in failing && !failing[tag].Gone?);
    h.(authorized := false, ledger := Loaded(h.ledger), runtime := h.runtime - removed)
  }

  /** Adds a managed inbound back; one whose limiter mapping is missing is taken out instead. */
  function Reenabled(h: Host, tag: string, mapped: bool, o: Outcome): Host
  {
    var inbound := Original(Snapshot(h), tag);
    if !mapped then (if tag in h.runtime then Removed(h, tag, o) else h)
    else if tag in h.runtime || inbound.None? then h
    else Added(h, tag, inbound.value, o)
  }

  function Crashed(h: Host, authorized: bool): Host
  {
    h.(authorized := authorized, ledger := Ledger(false, map[], false, h.ledger.sidecar),
       running := h.running && !h.embedded, runtime := if h.embedded then map[] else h.runtime)
  }

  ghost predicate Quiescent(h: Host)
  {
    h.ledger.loaded && NoPending(h.ledger.states)
  }

  ghost function Next(w: World, e: Event, env: Env): World
  {
    var h := w.host;
    match e
    case Step(tag, o) => Go(h, w.at, tag, o, env)
    case Crashing(authorized) => World(Crashed(h, authorized), Idle)
    case Outside(disk) => World(h.(disk := disk), w.at)
    case _ => if w.at.Idle? then Begin(h, e, env) else w
  }

  /** What a request does first. The edits of an inbound and of its clients, and the removes, are
      turned down while an add is pending. */
  ghost function Begin(h: Host, e: Event, env: Env): World
  {
    match e
    case Ensuring(w) => World(h.(ledger := AfterEnsure(h.ledger, h.disk, env.digest, w)), Idle)
    case Adding(req, w) => StartAdd(h, req, w, env)
    case Removing(tag, id, w) => if Quiescent(h) then StartRemove(h, tag, id, w) else World(h, Idle)
    case Recovering => Recover(h, env)
    case Editing(tag, config, inbound, o) =>
      if Quiescent(h) then World(Replaced(WithConfig(h, h.disk.path, Some(config), o.write), tag, inbound, o), Idle)
      else World(h, Idle)
    case Starting(_, _, _) => Start(h, e, env)
    case Stopping => World(h.(running := false, runtime := map[]), Idle)
    case Denying(failing) => World(Denied(h, failing), Idle)
    case Granting => Recover(h.(authorized := true), env)
    case Reenabling(tag, mapped, o) =>
      if h.authorized && Quiescent(h) && Managed(h, tag) then World(Reenabled(h, tag, mapped, o), Idle) else World(h, Idle)
    case _ => World(h, Idle)
  }

  ghost function Run(w: World, events: seq<Event>, env: Env): World
  {
    if events == [] then w else Next(Run(w, events[..|events| - 1], env), events[|events| - 1], env)
  }
}

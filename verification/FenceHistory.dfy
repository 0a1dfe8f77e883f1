/** Whole runs of the fence: cancellations, owners and recoveries. */
module FenceHistory {
  import opened Json
  import opened InboundConfig
  import opened Fences
  import opened FenceMachine
  import opened FenceSafety
  import opened Writes

  function Recorded(w: World, tag: string): State
  {
    At(w.host.ledger.sidecar, tag)
  }

  lemma {:induction false} RunSafe(w: World, events: seq<Event>, env: Env)
    requires Safe(w)
    ensures Safe(Run(w, events, env))
  {
    if events != [] {
      RunSafe(w, events[..|events| - 1], env);
      EveryStepSane(Run(w, events[..|events| - 1], env), events[|events| - 1], env);
    }
  }

  /** Cancelled ids only grow, and an id that may still become owner is not one of them. */
  lemma {:induction false} CancellationsGrow(w: World, events: seq<Event>, env: Env, tag: string)
    requires Safe(w)
    ensures var before, after := Recorded(w, tag), Recorded(Run(w, events, env), tag);
            && before.canceled <= after.canceled
            && (after.pending.Some? ==> after.pending.value.owner !in after.canceled)
  {
    RunSafe(w, events, env);
    if events != [] {
      var init, last := events[..|events| - 1], events[|events| - 1];
      RunSafe(w, init, env);
      CancellationsGrow(w, init, env, tag);
      EveryStepSane(Run(w, init, env), last, env);
    }
  }

  /** Once an id has been cancelled and is not the owner, it never becomes the owner. */
  lemma {:induction false} CancelledNeverOwns(w: World, events: seq<Event>, env: Env, tag: string, id: string)
    requires Safe(w) && id != ""
    requires id in Recorded(w, tag).canceled && Recorded(w, tag).owner != id
    ensures id in Recorded(Run(w, events, env), tag).canceled && Recorded(Run(w, events, env), tag).owner != id
  {
    if events != [] {
      var init, last := events[..|events| - 1], events[|events| - 1];
      CancelledNeverOwns(w, init, env, tag, id);
      RunSafe(w, init, env);
      EveryStepSane(Run(w, init, env), last, env);
      assert SoundState(Recorded(Run(w, init, env), tag));
    }
  }

  /** After a remove has been recorded, an add with its id is turned down for good. */
  lemma CancelledAddRejected(w: World, events: seq<Event>, env: Env, req: Request, write: Write)
    requires Safe(w) && req.mutationId != "" && req.mutationId in Recorded(w, req.tag).canceled
    ensures var v := Run(w, events, env);
            v.at.Idle? && v.host.ledger.loaded ==> Next(v, Adding(req, write), env) == v
  {
    CancellationsGrow(w, events, env, req.tag);
    RunSafe(w, events, env);
    var v := Run(w, events, env);
    if v.at.Idle? && v.host.ledger.loaded {
      LedgerAgrees(v.host.ledger, req.tag);
      assert Turned(v.host, req, env);
    }
  }

  /** The caller's expectation about the owner and the inbound that the add replaces. */
  ghost predicate Expected(owner: string, copies: seq<Fields>, req: Request, digest: Fields -> string)
  {
    match req.expectedOwner
    case None => req.expectedDigest == ""
    case Some(expected) =>
      && req.mutationId != "" && owner == TrimSpace(expected)
      && req.expectedDigest != "" && copies != [] && digest(copies[0]) == req.expectedDigest
  }

  /** Nothing is pending, the caller's expectation is met by the recorded owner and the file in use, and
      the add is either without an id on a tag without history, or with an id that was not cancelled. */
  ghost predicate Accepted(h: Host, req: Request, env: Env)
  {
    var st := if req.tag in h.ledger.states then h.ledger.states[req.tag] else State("", {}, None);
    var copies := if h.disk.path in h.disk.configs && req.tag in h.disk.configs[h.disk.path]
                  then h.disk.configs[h.disk.path][req.tag] else [];
    && h.ledger.loaded && (forall t :: t in h.ledger.states ==> h.ledger.states[t].pending == None)
    && req.tag != "" && h.disk.path != "" && (h.authorized || req.mutationId == "")
    && Expected(st.owner, copies, req, env.digest)
    && (req.mutationId == "" ==> st.owner == "" && st.canceled == {})
    && (req.mutationId != "" ==> req.mutationId !in st.canceled)
  }

  /** When an add goes on to write the configuration: it is accepted, and its record could be written. */
  lemma AddGoesOn(h: Host, req: Request, w: Write, env: Env)
    ensures StartAdd(h, req, w, env).at.Persisting? <==> Accepted(h, req, env) && (req.mutationId != "" ==> w == Done)
  {
  }

  /** Otherwise nothing happens, unless the record has been written and is to be taken back. */
  lemma AddStops(h: Host, req: Request, w: Write, env: Env)
    ensures StartAdd(h, req, w, env).at.Unreserving? <==> Accepted(h, req, env) && req.mutationId != "" && w == FailedAfter
    ensures !Accepted(h, req, env) || (req.mutationId != "" && w == FailedBefore) ==> StartAdd(h, req, w, env) == World(h, Idle)
  {
  }

  /** What such an add has recorded: its id, the file and the digest it is going to leave there, and
      the owner and the inbound it replaces. */
  lemma AddRecords(h: Host, req: Request, w: Write, env: Env)
    requires StartAdd(h, req, w, env).at.Persisting?
    ensures var v := StartAdd(h, req, w, env);
            var st := if req.tag in h.ledger.states then h.ledger.states[req.tag] else State("", {}, None);
            var copies := if h.disk.path in h.disk.configs && req.tag in h.disk.configs[h.disk.path]
                          then h.disk.configs[h.disk.path][req.tag] else [];
            var inbound := MergedAll(req.inbound, if copies == [] then [] else copies[1..], env.sprint);
            var pending := Pending(req.mutationId, h.disk.path, env.digest(inbound), st.owner, req.tag in h.ledger.states,
                                   copies != [], if copies == [] then "" else env.digest(copies[0]));
            && v.host == h.(ledger := v.host.ledger)
            && (req.mutationId == "" ==> v.host.ledger.states == h.ledger.states)
            && (req.mutationId != "" ==> v.host.ledger.states == h.ledger.states[req.tag := State(st.owner, st.canceled, Some(pending))])
            && v.at.add.tag == req.tag && v.at.add.path == h.disk.path && v.at.add.inbound == inbound
            && v.at.add.original == (if copies == [] then None else Some(copies[0]))
            && (v.at.add.txn.Some? <==> req.mutationId != "")
  {
  }

  /** An owner changes only when an add of the new id is committed, when a recovery finds its
      inbound in the files, or when a remove that names the old id is completed. */
  lemma OwnerChanges(w: World, e: Event, env: Env, tag: string)
    requires Safe(w)
    ensures var before, after := Recorded(w, tag), Recorded(Next(w, e, env), tag);
            || after.owner == before.owner
            || CommittedBy(w, e, tag, after)
            || ((w.at.Resolving? || (w.at.Idle? && e.Ensuring?)) && RecoveredBy(tag, before, after, w.host.disk, env.digest))
            || RemovedBy(w, e, tag, before, after)
  {
    EveryStepSane(w, e, env);
  }

  // ----- recovery -----

  /** Every file has the tag, with this digest. */
  ghost predicate AllHold(configs: map<string, Config>, files: set<string>, tag: string, wanted: string, digest: Fields -> string)
    requires files <= configs.Keys
  {
    forall p :: p in files ==> Copies(configs[p], tag) != [] && digest(Copies(configs[p], tag)[0]) == wanted
  }

  /** What a recovery decides about a pending add, in terms of the file its record names and the file
      in use: intended or previous when those that exist agree on that generation, and refused when
      none exists, one has the tag twice, they disagree, or they agree on a third generation. */
  lemma ResolutionMeans(tag: string, pending: Pending, disk: Disk, digest: Fields -> string)
    ensures var files := set p | p in disk.configs && (p == pending.configPath || (p == disk.path && p != ""));
            var r := ResolutionOf(tag, pending, disk, digest);
            var agree := files != {} && Agree(disk.configs, files, tag, digest);
            var intended := agree && AllHold(disk.configs, files, tag, pending.intendedDigest, digest);
            var previous := agree && if pending.previousPresent then AllHold(disk.configs, files, tag, pending.previousDigest, digest)
                                     else forall p :: p in files ==> Copies(disk.configs[p], tag) == [];
            && (r.Intended? <==> intended)
            && (r.Previous? <==> previous && !intended)
            && (r.Refused? <==> !previous && !intended)
  {
    ActualMeans(disk, tag, pending, digest);
    var files := set p | p in disk.configs && (p == pending.configPath || (p == disk.path && p != ""));
    if ActualInbound(disk, tag, pending, digest).Actual? {
      var first := if pending.configPath in files then pending.configPath else disk.path;
      assert first in files;
    }
  }

  lemma NothingPendsThen(l: Ledger, disk: Disk, digest: Fields -> string, w: Write)
    requires l.loaded && ResolveSucceeds(l, disk, digest, w)
    ensures NoPending(AfterResolve(l, disk, digest, w).states)
  {
    if !NoPending(l.states) {
      assert AfterResolve(l, disk, digest, w).states == Resolved(l.states, disk, digest);
    }
  }

  lemma SettledIfPending(l: Ledger, disk: Disk, digest: Fields -> string, tag: string)
    requires SoundLedger(l) && l.loaded && AllDecided(l.states, disk, digest)
    ensures Decided(tag, At(l.sidecar, tag), disk, digest)
    ensures NoPending(l.states) ==> At(l.sidecar, tag) == Settled(tag, At(l.sidecar, tag), disk, digest)
  {
    LedgerAgrees(l, tag);
  }

  lemma ResolveDecides(l: Ledger, disk: Disk, digest: Fields -> string, w: Write, tag: string)
    requires SoundLedger(l) && l.loaded && ResolveSucceeds(l, disk, digest, w)
    ensures NoPending(AfterResolve(l, disk, digest, w).states)
    ensures At(AfterResolve(l, disk, digest, w).sidecar, tag) == Settled(tag, At(l.sidecar, tag), disk, digest)
    ensures At(l.sidecar, tag).pending.Some? ==> !ResolutionOf(tag, At(l.sidecar, tag).pending.value, disk, digest).Refused?
  {
    NothingPendsThen(l, disk, digest, w);
    ResolveRecords(l, disk, digest, w, tag);
    LedgerAgrees(l, tag);
    SettledIfPending(l, disk, digest, tag);
  }

  /** After any run, a recovery that gets to its end decides every pending add or none. It succeeds
      exactly when all can be decided and the decisions could be written; then nothing is pending any
      more, and each owner is the id of the add or the owner before it, as the files say. */
  lemma RecoveryDecides(w: World, events: seq<Event>, env: Env, pick: string, o: Outcome, tag: string)
    requires Safe(w) && Run(w, events, env).at.Resolving?
    ensures var v := Run(w, events, env);
            var u := Next(v, Step(pick, o), env);
            var before, after := Recorded(v, tag), Recorded(u, tag);
            var l, disk := v.host.ledger, v.host.disk;
            && (!AllDecided(l.states, disk, env.digest) ==> u.host == v.host)
            && (AllDecided(l.states, disk, env.digest) && (o.write.Done? || NoPending(l.states)) ==>
                  && NoPending(u.host.ledger.states) && after.canceled == before.canceled
                  && (before.pending.None? ==> after == before)
                  && (before.pending.Some? ==>
                        match ResolutionOf(tag, before.pending.value, disk, env.digest)
                        case Intended => after.owner == before.pending.value.owner
                        case Previous => after.owner == before.owner
                        case Refused => false))
  {
    RunSafe(w, events, env);
    var v := Run(w, events, env);
    var l := v.host.ledger;
    if ResolveSucceeds(l, v.host.disk, env.digest, o.write) {
      ResolveDecides(l, v.host.disk, env.digest, o.write, tag);
      assert SoundState(At(l.sidecar, tag));
    }
  }

  /** What may happen while recoveries are tried again and again: nothing that changes a
      configuration file, and no add or remove. */
  predicate OfRecovery(e: Event)
  {
    e.Step? || e.Recovering? || e.Ensuring? || e.Crashing? || e.Starting? || e.Stopping? || e.Denying? || e.Granting?
  }

  predicate InRecovery(at: Point)
  {
    at.Idle? || at.Converging? || at.Guarding? || at.Resolving?
  }

  lemma RecoveryStep(w: World, e: Event, env: Env, tag: string)
    requires Safe(w) && InRecovery(w.at) && OfRecovery(e)
    ensures var v := Next(w, e, env);
            && InRecovery(v.at) && v.host.disk == w.host.disk
            && (Recorded(v, tag) == Recorded(w, tag) || Recorded(v, tag) == Settled(tag, Recorded(w, tag), w.host.disk, env.digest))
  {
    if e.Step? {
      RecoveryGo(w, e.tag, e.o, env, tag);
    } else if e.Ensuring? && w.at.Idle? {
      LoadedSafe(w.host);
      ResolveRecords(Loaded(w.host.ledger), w.host.disk, env.digest, e.w, tag);
    }
  }

  lemma RecoveryGo(w: World, pick: string, o: Outcome, env: Env, tag: string)
    requires Safe(w) && InRecovery(w.at)
    ensures var v := Go(w.host, w.at, pick, o, env);
            && InRecovery(v.at) && v.host.disk == w.host.disk
            && (Recorded(v, tag) == Recorded(w, tag) || Recorded(v, tag) == Settled(tag, Recorded(w, tag), w.host.disk, env.digest))
  {
    match w.at
    case Converging(todo) => ConvergeRecords(w.host, todo, pick, o, env);
    case Resolving => ResolveRecords(w.host.ledger, w.host.disk, env.digest, o.write, tag);
    case _ =>
  }

  lemma ConvergeRecords(h: Host, todo: set<string>, pick: string, o: Outcome, env: Env)
    ensures var v := Converge(h, todo, pick, o, env);
            InRecovery(v.at) && v.host.disk == h.disk && v.host.ledger == h.ledger
  {
  }

  /** However often a recovery is cut short and begun again, it decides each tag the same way. */
  lemma {:induction false} RecoveryRepeats(w: World, events: seq<Event>, env: Env, tag: string)
    requires Safe(w) && InRecovery(w.at) && forall e :: e in events ==> OfRecovery(e)
    ensures var v := Run(w, events, env);
            && InRecovery(v.at) && v.host.disk == w.host.disk
            && (Recorded(v, tag) == Recorded(w, tag) || Recorded(v, tag) == Settled(tag, Recorded(w, tag), w.host.disk, env.digest))
  {
    if events != [] {
      var init, last := events[..|events| - 1], events[|events| - 1];
      RecoveryRepeats(w, init, env, tag);
      RunSafe(w, init, env);
      RecoveryStep(Run(w, init, env), last, env, tag);
    }
  }
}

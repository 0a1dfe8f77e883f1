/** Whether a commit finds what its record asks for: the same inbound is prepared once before it is
    recorded and once more when it is written. */
module FenceCommits {
  import opened Json
  import opened InboundConfig
  import opened Fences
  import opened FenceMachine
  import opened FenceSafety
  import opened FenceHistory
  import opened FenceQuiet
  import opened Writes

  /** The record names the file in use and the digest of the inbound, which was prepared against the snapshot. */
  ghost predicate RecordKept(h: Host, a: Add, env: Env)
  {
    && a.path == h.disk.path
    && (a.snapshot.Some? ==> a.inbound == Prepared(a.snapshot.value, a.tag, a.requested, env))
    && (a.txn.Some? ==> Pends(h, a.tag) && RecordOf(h, a.tag).configPath == a.path
                        && RecordOf(h, a.tag).intendedDigest == env.digest(a.inbound))
  }

  /** The file holds the inbound as it was prepared again against the same snapshot. */
  ghost predicate WrittenTo(h: Host, a: Add, env: Env)
  {
    && a.snapshot.Some? && Snapshot(h).Some?
    && Copies(Snapshot(h).value, a.tag) == [Prepared(a.snapshot.value, a.tag, a.inbound, env)]
  }

  ghost predicate AddTracked(h: Host, at: Point, env: Env)
  {
    match at
    case Persisting(a) => RecordKept(h, a, env) && Snapshot(h) == a.snapshot
    case Sealing(a) => RecordKept(h, a, env) && WrittenTo(h, a, env)
    case Activating(a) => RecordKept(h, a, env) && WrittenTo(h, a, env)
    case Committing(a) => RecordKept(h, a, env) && WrittenTo(h, a, env)
    case _ => true
  }

  lemma PersistTracked(h: Host, a: Add, o: Outcome, env: Env)
    requires AddTracked(h, Persisting(a), env)
    ensures AddTracked(Persist(h, a, o, env).host, Persist(h, a, o, env).at, env)
  {
    if a.snapshot.Some? {
      UpsertHolds(a.snapshot.value, a.tag, a.inbound, env);
    }
  }

  lemma StartTracked(h: Host, req: Request, w: Write, env: Env)
    requires SoundLedger(h.ledger)
    ensures AddTracked(StartAdd(h, req, w, env).host, StartAdd(h, req, w, env).at, env)
  {
    if !Turned(h, req, env) && req.mutationId != "" {
      ReservedRecord(h, PreparedRequest(h, req, env), AddOf(h, req, env).original, w, env, req.tag);
    }
  }

  lemma GoTracked(w: World, pick: string, o: Outcome, env: Env)
    requires AddTracked(w.host, w.at, env)
    ensures AddTracked(Go(w.host, w.at, pick, o, env).host, Go(w.host, w.at, pick, o, env).at, env)
  {
    match w.at
    case Persisting(a) => PersistTracked(w.host, a, o, env);
    case _ =>
  }

  lemma StepTracked(w: World, e: Event, env: Env)
    requires Safe(w) && AddTracked(w.host, w.at, env) && !e.Outside?
    ensures AddTracked(Next(w, e, env).host, Next(w, e, env).at, env)
  {
    if e.Step? {
      GoTracked(w, e.tag, e.o, env);
    } else if e.Adding? && w.at.Idle? {
      StartTracked(w.host, e.req, e.w, env);
    }
  }

  lemma {:induction false} RunTracked(w: World, events: seq<Event>, env: Env)
    requires Safe(w) && w.at.Idle? && forall e :: e in events ==> !e.Outside?
    ensures AddTracked(Run(w, events, env).host, Run(w, events, env).at, env)
  {
    if events != [] {
      var init, last := events[..|events| - 1], events[|events| - 1];
      RunTracked(w, init, env);
      RunSafe(w, init, env);
      StepTracked(Run(w, init, env), last, env);
    }
  }

  /** What decides a commit that has been reached. */
  lemma TrackedCommits(h: Host, a: Add, env: Env)
    requires Safe(World(h, Committing(a))) && AddTracked(h, Committing(a), env) && a.txn.Some?
    ensures Committable(h.ledger, a.txn.value, h.disk, env.digest)
        <==> env.digest(Prepared(a.snapshot.value, a.tag, a.inbound, env)) == env.digest(a.inbound)
  {
    LedgerAgrees(h.ledger, a.tag);
  }

  /** After any run in which nobody else edits the file, a commit that has been reached matches
      exactly when preparing the inbound a second time gave the same digest. The two inbounds are the
      same exactly when the clients that were taken over from the later copies can be told apart. */
  lemma CommitMatchesExactly(w: World, events: seq<Event>, env: Env)
    requires Safe(w) && w.at.Idle? && forall e :: e in events ==> !e.Outside?
    requires Run(w, events, env).at.Committing? && Run(w, events, env).at.add.txn.Some?
    ensures var v := Run(w, events, env);
            var a := v.at.add;
            && a.snapshot.Some?
            && var again := Prepared(a.snapshot.value, a.tag, a.inbound, env);
            && (Committable(v.host.ledger, a.txn.value, v.host.disk, env.digest) <==> env.digest(again) == env.digest(a.inbound))
            && (again == a.inbound <==> CopiesIdentified(a.requested, Later(a.snapshot.value, a.tag), env.sprint))
  {
    RunSafe(w, events, env);
    RunTracked(w, events, env);
    var v := Run(w, events, env);
    TrackedCommits(v.host, v.at.add, env);
    PreparedTwice(v.at.add.snapshot.value, v.at.add.tag, v.at.add.requested, env);
  }
}

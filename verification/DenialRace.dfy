/** The limiter's operations on one user, atomic step by atomic step, under every interleaving: when a
    denial holds for good. */
module DenialRaces {
  import opened Json
  import opened UserBuckets

  /** What the current policy says about the user. */
  datatype Terms = Terms(denied: bool, rate: nat)

  /** Where an operation is. Between two of its steps it goes by what it has read. */
  datatype Task =
    // opening a link: read the policy, then take the bucket in the hub or put one there
    | Opening
    | Granted(rate: nat)
    | Holding(bucket: nat)
    | Turned
    // setting a speed: read the policy, then look into the hub, then write or store
    | Speeding(speed: nat)
    | Throttling(speed: nat)
    | Relaxing
    | Storing(to: Bucket)
    // a delivery: store the policy, then look into the hub, then write
    | Delivering(terms: Terms, isSync: bool)
    | Visiting(to: Bucket)
    | Writing(bucket: nat, to: Bucket)
    | Finished

  /** The hub's entry for the user, all buckets, and any number of operations on the way. */
  datatype World = World(terms: Terms, hub: Option<nat>, buckets: seq<Bucket>, tasks: map<nat, Task>)

  function With(w: World, id: nat, task: Task): World
  {
    w.(tasks := w.tasks[id := task])
  }

  function Stored(w: World, b: Bucket): World
  {
    w.(hub := Some(|w.buckets|), buckets := w.buckets + [b])
  }

  /** One atomic step of an operation. */
  function Step(w: World, id: nat): World
  {
    if id !in w.tasks then w
    else
      match w.tasks[id]
      case Opening => With(w, id, if w.terms.denied then Turned else Granted(w.terms.rate))
      case Granted(rate) =>
        if w.hub.Some? then With(w, id, Holding(w.hub.value))
        else With(Stored(w, BucketFor(rate)), id, Holding(|w.buckets|))
      case Speeding(speed) =>
        With(w, id, if w.terms.denied then Visiting(CLOSED) else if speed > 0 then Throttling(speed) else Relaxing)
      case Throttling(speed) =>
        With(w, id, if w.hub.Some? then Writing(w.hub.value, BucketFor(speed)) else Storing(BucketFor(speed)))
      case Relaxing => With(w, id, Visiting(BucketFor(w.terms.rate)))
      case Storing(to) => With(Stored(w, to), id, Finished)
      case Delivering(terms, isSync) =>
        With(w.(terms := terms), id,
             if terms.denied then Visiting(CLOSED)
             else if terms.rate > 0 || isSync then Visiting(BucketFor(terms.rate)) else Finished)
      case Visiting(to) => With(w, id, if w.hub.Some? then Writing(w.hub.value, to) else Finished)
      case Writing(b, to) => With(if b < |w.buckets| then w.(buckets := w.buckets[b := to]) else w, id, Finished)
      case _ => w
  }

  /** The collection of idle buckets checks first and deletes later, so that it may come at any time. */
  datatype Event = Doing(id: nat) | Collecting

  function Next(w: World, e: Event): World
  {
    match e
    case Doing(id) => Step(w, id)
    case Collecting => w.(hub := None)
  }

  function Run(w: World, events: seq<Event>): World
  {
    if events == [] then w else Next(Run(w, events[..|events| - 1]), events[|events| - 1])
  }

  // ----- what every run keeps -----

  predicate SoundTask(t: Task, n: nat)
  {
    match t
    case Holding(b) => b < n
    case Writing(b, _) => b < n
    case Storing(to) => to != CLOSED
    case _ => true
  }

  /** Buckets that are referred to exist, and nobody stores a closed one. */
  predicate Sound(w: World)
  {
    && (w.hub.Some? ==> w.hub.value < |w.buckets|)
    && (forall id :: id in w.tasks ==> SoundTask(w.tasks[id], |w.buckets|))
  }

  lemma StepSound(w: World, e: Event)
    requires Sound(w)
    ensures Sound(Next(w, e)) && |w.buckets| <= |Next(w, e).buckets|
  {
  }

  lemma {:induction false} RunSound(w: World, events: seq<Event>)
    requires Sound(w)
    ensures Sound(Run(w, events))
  {
    if events != [] {
      RunSound(w, events[..|events| - 1]);
      StepSound(Run(w, events[..|events| - 1]), events[|events| - 1]);
    }
  }

  // ----- a denial -----

  /** Whatever links there are, and whatever bucket the next one would be given, are closed. */
  predicate Shut(w: World)
    requires Sound(w)
  {
    && (w.hub.Some? ==> w.buckets[w.hub.value] == CLOSED)
    && (forall id :: id in w.tasks && w.tasks[id].Holding? ==> ClosedFor(w, w.tasks[id]))
  }

  predicate ClosedFor(w: World, t: Task)
  {
    t.Holding? ==> t.bucket < |w.buckets| && w.buckets[t.bucket] == CLOSED
  }

  ghost predicate Held(w: World, b: nat)
  {
    exists id :: id in w.tasks && w.tasks[id] == Holding(b)
  }

  /** An operation that has read the policy, or the hub, too early: it may still leave the user an open
      bucket. */
  ghost predicate Threat(w: World, t: Task)
  {
    match t
    case Granted(_) => true
    case Throttling(_) => true
    case Storing(_) => true
    case Relaxing => w.hub.Some?
    case Visiting(to) => to != CLOSED && w.hub.Some?
    case Writing(b, to) => to != CLOSED && (w.hub == Some(b) || Held(w, b))
    case _ => false
  }

  ghost predicate NoThreat(w: World)
  {
    forall id :: id in w.tasks ==> !Threat(w, w.tasks[id])
  }

  /** The policy goes on denying. */
  predicate Denying(w: World, e: Event)
  {
    e.Doing? && e.id in w.tasks && w.tasks[e.id].Delivering? ==> w.tasks[e.id].terms.denied
  }

  predicate DenyingRun(w: World, events: seq<Event>)
  {
    events == [] || (DenyingRun(w, events[..|events| - 1]) && Denying(Run(w, events[..|events| - 1]), events[|events| - 1]))
  }

  ghost predicate Calm(w: World)
  {
    Sound(w) && w.terms.denied && Shut(w) && NoThreat(w)
  }

  /** With the same entry in the hub or none, and no more links, a task threatens no more. */
  lemma ThreatShrinks(w: World, v: World, t: Task)
    requires (v.hub == w.hub || v.hub.None?) && forall b: nat :: Held(v, b) ==> Held(w, b)
    requires Threat(v, t)
    ensures Threat(w, t)
  {
  }

  /** A step in a calm world opens no bucket that counts, adds no link and puts nothing into the hub. */
  lemma CalmDoing(w: World, id: nat)
    requires Calm(w) && Denying(w, Doing(id)) && id in w.tasks
    ensures var v := Step(w, id);
            && v.hub == w.hub && v.terms.denied && v.tasks.Keys == w.tasks.Keys && |v.buckets| == |w.buckets|
            && (forall k :: k in w.tasks && k != id ==> v.tasks[k] == w.tasks[k])
            && (v.tasks[id] == w.tasks[id] || !v.tasks[id].Holding?) && !Threat(w, v.tasks[id])
            && (forall b: nat :: b < |w.buckets| && (w.hub == Some(b) || Held(w, b)) && w.buckets[b] == CLOSED ==> v.buckets[b] == CLOSED)
  {
    assert !Threat(w, w.tasks[id]);
  }

  lemma CalmStep(w: World, e: Event)
    requires Calm(w) && Denying(w, e)
    ensures Calm(Next(w, e))
  {
    var v := Next(w, e);
    StepSound(w, e);
    if e.Doing? && e.id in w.tasks {
      CalmDoing(w, e.id);
    }
    forall b: nat | Held(v, b) ensures Held(w, b) {
      var k :| k in v.tasks && v.tasks[k] == Holding(b);
      assert w.tasks[k] == Holding(b);
    }
    forall id | id in v.tasks ensures !Threat(v, v.tasks[id]) {
      if Threat(v, v.tasks[id]) {
        ThreatShrinks(w, v, v.tasks[id]);
      }
    }
    forall id | id in v.tasks && v.tasks[id].Holding? ensures ClosedFor(v, v.tasks[id]) {
      assert w.tasks[id] == v.tasks[id] && ClosedFor(w, w.tasks[id]) && Held(w, v.tasks[id].bucket);
    }
  }

  lemma {:induction false} CalmRun(w: World, events: seq<Event>)
    requires Calm(w) && DenyingRun(w, events)
    ensures Calm(Run(w, events))
  {
    if events != [] {
      CalmRun(w, events[..|events| - 1]);
      CalmStep(Run(w, events[..|events| - 1]), events[|events| - 1]);
    }
  }

  lemma RunOnce(w: World, e: Event)
    ensures Run(w, [e]) == Next(w, e) && (DenyingRun(w, [e]) <==> Denying(w, e))
  {
    assert [e][..0] == [];
  }

  lemma RunTwice(w: World, d: Event, e: Event)
    ensures Run(w, [d, e]) == Next(Next(w, d), e)
    ensures DenyingRun(w, [d, e]) <==> Denying(w, d) && Denying(Next(w, d), e)
  {
    assert [d, e][..1] == [d];
    RunOnce(w, d);
  }

  /** A threat needs a few more steps at most to leave an open bucket in the hub or with a link. */
  lemma ThreatOpens(w: World, id: nat) returns (events: seq<Event>)
    requires Sound(w) && id in w.tasks && Threat(w, w.tasks[id])
    ensures DenyingRun(w, events) && Sound(Run(w, events)) && !Shut(Run(w, events))
  {
    var first := if w.tasks[id].Granted? then Collecting else Doing(id);
    var v := Next(w, first);
    StepSound(w, first);
    StepSound(v, Doing(id));
    if w.tasks[id].Storing? || w.tasks[id].Writing? {
      events := [first];
      RunOnce(w, first);
      OpenAfterOne(w, id);
    } else if w.tasks[id].Relaxing? {
      events := RelaxingOpens(w, id);
    } else {
      events := [first, Doing(id)];
      RunTwice(w, first, Doing(id));
      OpenAfterTwo(w, id);
    }
  }

  lemma OpenAfterOne(w: World, id: nat)
    requires Sound(w) && id in w.tasks && Threat(w, w.tasks[id]) && (w.tasks[id].Storing? || w.tasks[id].Writing?)
    requires Sound(Step(w, id))
    ensures !Shut(Step(w, id))
  {
    var v := Step(w, id);
    if w.tasks[id].Writing? && w.hub != Some(w.tasks[id].bucket) {
      var b := w.tasks[id].bucket;
      var other :| other in w.tasks && w.tasks[other] == Holding(b);
      assert v.tasks[other] == Holding(b) && !ClosedFor(v, v.tasks[other]);
    }
  }

  lemma OpenAfterTwo(w: World, id: nat)
    requires Sound(w) && id in w.tasks && Threat(w, w.tasks[id])
    requires w.tasks[id].Granted? || w.tasks[id].Throttling? || w.tasks[id].Visiting?
    ensures var v := Next(w, if w.tasks[id].Granted? then Collecting else Doing(id));
            Sound(Step(v, id)) && !Shut(Step(v, id))
  {
    var first := if w.tasks[id].Granted? then Collecting else Doing(id);
    StepSound(w, first);
    StepSound(Next(w, first), Doing(id));
    var v := Step(Next(w, first), id);
    if w.tasks[id].Granted? {
      assert v.hub == Some(|w.buckets|) && v.buckets[|w.buckets|] == BucketFor(w.tasks[id].rate);
    }
  }

  lemma RelaxingOpens(w: World, id: nat) returns (events: seq<Event>)
    requires Sound(w) && id in w.tasks && w.tasks[id].Relaxing? && w.hub.Some?
    ensures DenyingRun(w, events) && Sound(Run(w, events)) && !Shut(Run(w, events))
  {
    var e := Doing(id);
    var v := Next(w, e);
    events := [e, e, e];
    assert events[..2] == [e, e];
    RunTwice(w, e, e);
    OpenAfterTwo(v, id);
    RunSound(w, events);
  }

  predicate ShutAfter(w: World, events: seq<Event>)
  {
    Sound(Run(w, events)) && Shut(Run(w, events))
  }

  /** While the policy denies, the user is shut out for good exactly when the bucket in the hub and
      those of all links are closed, and no operation is on its way that has read too early. */
  lemma DenialIsFinal(w: World)
    requires Sound(w) && w.terms.denied
    ensures (forall events :: DenyingRun(w, events) ==> ShutAfter(w, events)) <==> Shut(w) && NoThreat(w)
  {
    if Shut(w) && NoThreat(w) {
      forall events | DenyingRun(w, events) ensures ShutAfter(w, events) {
        CalmRun(w, events);
      }
    } else if Shut(w) {
      var id :| id in w.tasks && Threat(w, w.tasks[id]);
      var events := ThreatOpens(w, id);
      assert DenyingRun(w, events) && !ShutAfter(w, events);
    } else {
      var none: seq<Event> := [];
      assert DenyingRun(w, none) && !ShutAfter(w, none);
    }
  }

  /** Each link holds the bucket in the hub, or a closed one. */
  predicate Reached(w: World)
  {
    forall id :: id in w.tasks && w.tasks[id].Holding? ==> w.hub == Some(w.tasks[id].bucket) || ClosedFor(w, w.tasks[id])
  }

  /** A delivered denial that nothing interrupts any more shuts the user out for good exactly when each
      link holds the bucket in the hub, or a closed one, and no other operation has read too early. */
  lemma DeliveredDenial(w: World, id: nat)
    requires Sound(w) && w.terms.denied && id in w.tasks && w.tasks[id] == Visiting(CLOSED)
    ensures Calm(Step(Step(w, id), id)) <==> NoThreat(w) && Reached(w)
  {
    var v := Step(Step(w, id), id);
    StepSound(w, Doing(id));
    StepSound(Step(w, id), Doing(id));
    DenialWritten(w, id);
    forall b: nat ensures Held(v, b) <==> Held(w, b) {
      if Held(w, b) {
        var k :| k in w.tasks && w.tasks[k] == Holding(b);
        assert v.tasks[k] == Holding(b);
      }
    }
    forall k | k in w.tasks ensures Threat(v, v.tasks[k]) <==> Threat(w, w.tasks[k]) {
      if k != id && Threat(v, v.tasks[k]) {
        ThreatShrinks(w, v, v.tasks[k]);
      }
      if k != id && Threat(w, w.tasks[k]) {
        ThreatShrinks(v, w, w.tasks[k]);
      }
    }
  }

  lemma DenialWritten(w: World, id: nat)
    requires Sound(w) && id in w.tasks && w.tasks[id] == Visiting(CLOSED)
    ensures var v := Step(Step(w, id), id);
            && v.hub == w.hub && v.terms == w.terms && v.tasks == w.tasks[id := Finished]
            && v.buckets == if w.hub.Some? then w.buckets[w.hub.value := CLOSED] else w.buckets
  {
  }

  // ----- operations that nothing interrupts -----

  /** The limiter as the operations on one user see it. */
  ghost function ViewOf(s: State, tag: string, email: string, tasks: map<nat, Task>): World
    requires tag in s.infos
  {
    var info := s.infos[tag];
    World(Terms(IsDenied(s, tag, email), SpeedOf(info, email)), if email in info.hub then Some(info.hub[email]) else None,
          s.buckets, tasks)
  }

  /** Whoever the policy of an email is, it stays so while the policies do. */
  lemma SamePolicy(a: Info, b: Info, tag: string, show: int -> string, email: string)
    requires WellKeyed(a, tag, show) && b.users == a.users
    ensures Policy(a, email) == Policy(b, email)
  {
    if u: User :| HasPolicy(a, email, u) {
      var k :| k in a.users && a.users[k] == u;
      PolicyIs(a, tag, show, k);
      PolicyIs(b, tag, show, k);
    } else {
      assert forall u: User :: HasPolicy(b, email, u) ==> HasPolicy(a, email, u);
    }
  }

  /** An opening whose two steps follow each other is the limiter's own operation. */
  lemma OpeningUninterrupted(s: State, tag: string, email: string, ip: string, tasks: map<nat, Task>, id: nat, show: int -> string)
    requires Keyed(s, show) && tag in s.infos && id in tasks && tasks[id] == Opening
    ensures var t := AfterGetUserBucket(s, tag, email, ip);
            && tag in t.infos
            && Step(Step(ViewOf(s, tag, email, tasks), id), id)
               == ViewOf(t, tag, email, tasks[id := if IsDenied(s, tag, email) then Turned else Holding(Slot(t, tag, email))])
  {
    var t := AfterGetUserBucket(s, tag, email, ip);
    if !IsDenied(s, tag, email) {
      SamePolicy(s.infos[tag], t.infos[tag], tag, show, email);
    }
  }

  lemma BucketsApart(s: State, tag: string, email: string, b: Bucket)
    requires tag in s.infos && SlotsExist(s)
    ensures SetBucket(s, tag, email, b) ==
              if email in s.infos[tag].hub then s.(buckets := s.buckets[s.infos[tag].hub[email] := b]) else s
    ensures email in s.infos[tag].hub ==> s.infos[tag].hub[email] < |s.buckets|
  {
    assert email in s.infos[tag].hub ==> InHub(s, tag, email) && Slot(s, tag, email) < |s.buckets|;
  }

  lemma WorldsEqual(v: World, s: State, tag: string, email: string, tasks: map<nat, Task>)
    requires tag in s.infos && v.terms == Terms(IsDenied(s, tag, email), SpeedOf(s.infos[tag], email))
    requires v.hub == (if email in s.infos[tag].hub then Some(s.infos[tag].hub[email]) else None)
    requires v.buckets == s.buckets && v.tasks == tasks
    ensures v == ViewOf(s, tag, email, tasks)
  {
  }

  /** What four steps make of the setting of a speed. */
  lemma SpeedSteps(w: World, id: nat, speed: nat)
    requires id in w.tasks && w.tasks[id] == Speeding(speed) && (w.hub.Some? ==> w.hub.value < |w.buckets|)
    ensures var to := if w.terms.denied then CLOSED else BucketFor(if speed > 0 then speed else w.terms.rate);
            var v := Step(Step(Step(Step(w, id), id), id), id);
            && v.terms == w.terms && v.tasks == w.tasks[id := Finished]
            && (if w.hub.Some? then v.hub == w.hub && v.buckets == w.buckets[w.hub.value := to]
                else if !w.terms.denied && speed > 0 then v.hub == Some(|w.buckets|) && v.buckets == w.buckets + [to]
                else v.hub == w.hub && v.buckets == w.buckets)
  {
    var a := Step(w, id);
    var b := Step(a, id);
  }

  /** Setting a speed without an interruption is the limiter's own operation as well. */
  lemma SpeedUninterrupted(s: State, tag: string, email: string, speed: nat, tasks: map<nat, Task>, id: nat, show: int -> string)
    requires Keyed(s, show) && SlotsExist(s) && tag in s.infos && id in tasks && tasks[id] == Speeding(speed)
    ensures var t := AfterSetUserSpeed(s, tag, email, speed);
            && tag in t.infos
            && Step(Step(Step(Step(ViewOf(s, tag, email, tasks), id), id), id), id) == ViewOf(t, tag, email, tasks[id := Finished])
  {
    var t := AfterSetUserSpeed(s, tag, email, speed);
    BucketsApart(s, tag, email, CLOSED);
    SlotsStay(s, s.autoLimited + {email});
    SlotsStay(s, s.autoLimited - {email});
    BucketsApart(s.(autoLimited := s.autoLimited + {email}), tag, email, BucketFor(speed));
    BucketsApart(s.(autoLimited := s.autoLimited - {email}), tag, email, BucketFor(SpeedOf(s.infos[tag], email)));
    SamePolicy(s.infos[tag], t.infos[tag], tag, show, email);
    SpeedSteps(ViewOf(s, tag, email, tasks), id, speed);
    var w := ViewOf(s, tag, email, tasks);
    WorldsEqual(Step(Step(Step(Step(w, id), id), id), id), t, tag, email, tasks[id := Finished]);
  }

  lemma StoredOne(stored: map<string, User>, tag: string, u: User, show: int -> string)
    ensures UserBuckets.Stored(stored, tag, [u], show) == stored[Key(tag, u, show) := u]
  {
    assert [u][..0] == [];
    assert UserBuckets.Stored(stored, tag, [u][..0], show) == stored;
  }

  lemma DeliverySteps(w: World, id: nat, terms: Terms, isSync: bool)
    requires id in w.tasks && w.tasks[id] == Delivering(terms, isSync) && (w.hub.Some? ==> w.hub.value < |w.buckets|)
    ensures var v := Step(Step(Step(w, id), id), id);
            && v.terms == terms && v.hub == w.hub && v.tasks == w.tasks[id := Finished]
            && v.buckets == if w.hub.None? || (!isSync && !terms.denied && terms.rate == 0) then w.buckets
                            else w.buckets[w.hub.value := if terms.denied then CLOSED else BucketFor(terms.rate)]
  {
    var a := Step(w, id);
    var b := Step(a, id);
  }

  /** And so is the delivery of a policy. */
  lemma UpdateUninterrupted(s: State, tag: string, u: User, tasks: map<nat, Task>, id: nat, show: int -> string)
    requires SlotsExist(s) && tag in s.infos && Keyed(AfterUpdate(s, tag, [u], show), show)
    requires id in tasks && tasks[id] == Delivering(Terms(u.denied, DetermineRate(s.infos[tag].nodeLimit, u.speedLimit)), false)
    ensures var t := AfterUpdate(s, tag, [u], show);
            && tag in t.infos
            && Step(Step(Step(ViewOf(s, tag, u.email, tasks), id), id), id) == ViewOf(t, tag, u.email, tasks[id := Finished])
  {
    var t := AfterUpdate(s, tag, [u], show);
    var info := s.infos[tag].(users := UserBuckets.Stored(s.infos[tag].users, tag, [u], show));
    var stored := WithInfo(s, tag, info);
    SlotsKept(s, tag, info);
    assert [u][..0] == [];
    StoredOne(s.infos[tag].users, tag, u, show);
    BucketsApart(stored, tag, u.email, CLOSED);
    BucketsApart(stored, tag, u.email, BucketFor(DetermineRate(info.nodeLimit, u.speedLimit)));
    AppliedShape(stored, tag, [u], info.nodeLimit, false);
    PolicyIs(t.infos[tag], tag, show, Key(tag, u, show));
    var w := ViewOf(s, tag, u.email, tasks);
    DeliverySteps(w, id, Terms(u.denied, DetermineRate(info.nodeLimit, u.speedLimit)), false);
    WorldsEqual(Step(Step(Step(w, id), id), id), t, tag, u.email, tasks[id := Finished]);
  }

  /** The same holds of a sync, which opens the bucket of a user without limits. */
  lemma SyncUninterrupted(s: State, tag: string, nodeLimit: nat, u: User, tasks: map<nat, Task>, id: nat, show: int -> string)
    requires SlotsExist(s) && tag in s.infos
    requires id in tasks && tasks[id] == Delivering(Terms(u.denied, DetermineRate(nodeLimit, u.speedLimit)), true)
    ensures var t := AfterSync(s, tag, nodeLimit, [u], show);
            && tag in t.infos
            && Step(Step(Step(ViewOf(s, tag, u.email, tasks), id), id), id) == ViewOf(t, tag, u.email, tasks[id := Finished])
  {
    var t := AfterSync(s, tag, nodeLimit, [u], show);
    var info := s.infos[tag].(nodeLimit := nodeLimit, users := UserBuckets.Stored(map[], tag, [u], show));
    var stored := WithInfo(s, tag, info);
    SlotsKept(s, tag, info);
    assert [u][..0] == [];
    StoredOne(map[], tag, u, show);
    BucketsApart(stored, tag, u.email, CLOSED);
    BucketsApart(stored, tag, u.email, BucketFor(DetermineRate(nodeLimit, u.speedLimit)));
    AppliedShape(stored, tag, [u], nodeLimit, true);
    var k := Key(tag, u, show);
    assert t.infos[tag] == info && k in info.users && info.users[k] == u;
    assert HasPolicy(t.infos[tag], u.email, u);
    assert Policy(t.infos[tag], u.email) == Some(u);
    var w := ViewOf(s, tag, u.email, tasks);
    DeliverySteps(w, id, Terms(u.denied, DetermineRate(nodeLimit, u.speedLimit)), true);
    WorldsEqual(Step(Step(Step(w, id), id), id), t, tag, u.email, tasks[id := Finished]);
  }
}

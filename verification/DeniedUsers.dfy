/** A denied user stays out: over any run of the limiter, and on the links that are open already. */
module DeniedUsers {
  import opened Json
  import opened UserBuckets

  // ----- a denied user -----

  /** The bucket is closed, and nobody but this user may be given it again. */
  ghost predicate Shut(s: State, tag: string, email: string, bucket: nat)
  {
    && bucket < |s.buckets| && s.buckets[bucket] == CLOSED
    && forall t, e :: InHub(s, t, e) && Slot(s, t, e) == bucket ==> t == tag && e == email
  }

  /** The slots of `t` are slots of `s`, except new ones for buckets that `s` did not have. */
  ghost predicate Follows(s: State, t: State)
  {
    && |s.buckets| <= |t.buckets|
    && (forall u, e :: InHub(t, u, e) ==>
          if InHub(s, u, e) then Slot(t, u, e) == Slot(s, u, e) else |s.buckets| <= Slot(t, u, e) < |t.buckets|)
    && (forall u, e, v, f :: InHub(t, u, e) && InHub(t, v, f) && !InHub(s, u, e) && !InHub(s, v, f) ==> u == v && e == f)
  }

  lemma FollowsValid(s: State, t: State)
    requires SlotsExist(s) && Separate(s) && Follows(s, t)
    ensures SlotsExist(t) && Separate(t)
  {
  }

  lemma WithBucketFollows(s: State, tag: string, info: Info, email: string, b: Bucket)
    requires tag in s.infos && info.hub == s.infos[tag].hub
    ensures Follows(s, WithBucket(WithInfo(s, tag, info), tag, email, b))
  {
    assert forall u, e :: InHub(WithInfo(s, tag, info), u, e) <==> InHub(s, u, e);
  }

  lemma NextFollows(s: State, e: Event, show: int -> string)
    ensures Follows(s, Next(s, e, show))
  {
    match e
    case GetUserBucket(tag, email, ip) =>
      if tag in s.infos {
        WithBucketFollows(s, tag, Seen(s.infos[tag], email, ip), email, BucketFor(SpeedOf(s.infos[tag], email)));
      }
    case SetUserSpeed(tag, email, speed) =>
      if tag in s.infos {
        SetSpeedFollows(s, tag, email, speed);
      }
    case GetOnlineUsers(tag) =>
    case Sync(tag, nodeLimit, users) =>
      if tag in s.infos {
        var info := s.infos[tag].(nodeLimit := nodeLimit, users := Stored(map[], tag, users, show));
        AppliedShape(WithInfo(s, tag, info), tag, users, nodeLimit, true);
      }
    case Update(tag, users) =>
      if tag in s.infos {
        var info := s.infos[tag].(users := Stored(s.infos[tag].users, tag, users, show));
        AppliedShape(WithInfo(s, tag, info), tag, users, info.nodeLimit, false);
      }
    case Delete(tag) =>
  }

  lemma SetSpeedFollows(s: State, tag: string, email: string, speed: nat)
    requires tag in s.infos
    ensures Follows(s, AfterSetUserSpeed(s, tag, email, speed))
  {
    var t := s.(autoLimited := s.autoLimited + {email});
    assert s.infos[tag := s.infos[tag]] == s.infos;
    assert WithInfo(t, tag, s.infos[tag]) == t;
    WithBucketFollows(t, tag, s.infos[tag], email, BucketFor(speed));
    assert forall u, e :: InHub(t, u, e) <==> InHub(s, u, e);
  }

  /** Applying policies leaves a bucket alone that none of them is about. */
  lemma {:induction false} AppliedElsewhere(s: State, tag: string, users: seq<User>, nodeLimit: nat, isSync: bool, bucket: nat)
    requires bucket < |s.buckets|
    requires forall u :: u in users && InHub(s, tag, u.email) ==> Slot(s, tag, u.email) != bucket
    ensures |Applied(s, tag, users, nodeLimit, isSync).buckets| == |s.buckets|
    ensures Applied(s, tag, users, nodeLimit, isSync).buckets[bucket] == s.buckets[bucket]
  {
    AppliedShape(s, tag, users, nodeLimit, isSync);
    if users != [] {
      AppliedShape(s, tag, users[..|users| - 1], nodeLimit, isSync);
      AppliedElsewhere(s, tag, users[..|users| - 1], nodeLimit, isSync, bucket);
    }
  }

  /** The last entry about an email decides. */
  function LastOf(users: seq<User>, email: string): Option<User>
  {
    if users == [] then None
    else if users[|users| - 1].email == email then Some(users[|users| - 1])
    else LastOf(users[..|users| - 1], email)
  }

  predicate NoBars(users: seq<User>)
  {
    forall u :: u in users ==> '|' !in u.email
  }

  /** The stored policy of an email is its last entry. */
  lemma {:induction false} StoredLast(stored: map<string, User>, tag: string, users: seq<User>, show: int -> string, email: string)
    requires NoBars(users) && LastOf(users, email).Some?
    ensures var u := LastOf(users, email).value;
            u.email == email && Key(tag, u, show) in Stored(stored, tag, users, show)
            && Stored(stored, tag, users, show)[Key(tag, u, show)] == u
  {
    var init, last := users[..|users| - 1], users[|users| - 1];
    if last.email != email {
      StoredLast(stored, tag, init, show, email);
      var u := LastOf(users, email).value;
      EntryOf(init, email);
      PrefixFindsEmail(tag, last, email, show);
      PrefixFindsEmail(tag, u, email, show);
    }
  }

  lemma {:induction false} EntryOf(users: seq<User>, email: string)
    requires LastOf(users, email).Some?
    ensures LastOf(users, email).value in users
  {
    if users[|users| - 1].email != email {
      EntryOf(users[..|users| - 1], email);
    }
  }

  /** Applying policies closes the bucket of a user whose last entry denies. */
  lemma {:induction false} AppliedCloses(s: State, tag: string, users: seq<User>, nodeLimit: nat, isSync: bool, email: string)
    requires SlotsExist(s) && Separate(s) && InHub(s, tag, email)
    requires LastOf(users, email).Some? && LastOf(users, email).value.denied
    ensures |Applied(s, tag, users, nodeLimit, isSync).buckets| == |s.buckets|
    ensures Applied(s, tag, users, nodeLimit, isSync).buckets[Slot(s, tag, email)] == CLOSED
  {
    AppliedShape(s, tag, users, nodeLimit, isSync);
    var init, last := users[..|users| - 1], users[|users| - 1];
    AppliedShape(s, tag, init, nodeLimit, isSync);
    if last.email != email {
      AppliedCloses(s, tag, init, nodeLimit, isSync, email);
      if InHub(s, tag, last.email) {
        assert Slot(s, tag, last.email) != Slot(s, tag, email);
      }
    }
  }

  function SyncedInfo(s: State, tag: string, nodeLimit: nat, users: seq<User>, show: int -> string): Info
    requires tag in s.infos
  {
    s.infos[tag].(nodeLimit := nodeLimit, users := Stored(map[], tag, users, show))
  }

  function UpdatedInfo(s: State, tag: string, users: seq<User>, show: int -> string): Info
    requires tag in s.infos
  {
    s.infos[tag].(users := Stored(s.infos[tag].users, tag, users, show))
  }

  lemma SyncIs(s: State, tag: string, nodeLimit: nat, users: seq<User>, show: int -> string)
    requires tag in s.infos
    ensures var t := AfterSync(s, tag, nodeLimit, users, show);
            && t == Applied(WithInfo(s, tag, SyncedInfo(s, tag, nodeLimit, users, show)), tag, users, nodeLimit, true)
            && tag in t.infos && t.infos[tag] == SyncedInfo(s, tag, nodeLimit, users, show)
  {
    AppliedShape(WithInfo(s, tag, SyncedInfo(s, tag, nodeLimit, users, show)), tag, users, nodeLimit, true);
  }

  lemma UpdateIs(s: State, tag: string, users: seq<User>, show: int -> string)
    requires tag in s.infos
    ensures var t := AfterUpdate(s, tag, users, show);
            && t == Applied(WithInfo(s, tag, UpdatedInfo(s, tag, users, show)), tag, users, s.infos[tag].nodeLimit, false)
            && tag in t.infos && t.infos[tag] == UpdatedInfo(s, tag, users, show)
  {
    AppliedShape(WithInfo(s, tag, UpdatedInfo(s, tag, users, show)), tag, users, s.infos[tag].nodeLimit, false);
  }

  /** Delivering a denial in a sync closes the user's bucket, if there is one. */
  lemma SyncDenies(s: State, tag: string, nodeLimit: nat, users: seq<User>, show: int -> string, email: string)
    requires SlotsExist(s) && Separate(s) && NoBars(users) && LastOf(users, email).Some? && LastOf(users, email).value.denied
    requires Keyed(AfterSync(s, tag, nodeLimit, users, show), show)
    ensures var t := AfterSync(s, tag, nodeLimit, users, show);
            IsDenied(t, tag, email) && (InHub(t, tag, email) ==> Shut(t, tag, email, Slot(t, tag, email)))
  {
    StoredLast(map[], tag, users, show, email);
    if tag in s.infos {
      SyncIs(s, tag, nodeLimit, users, show);
      DeliveryShuts(s, tag, SyncedInfo(s, tag, nodeLimit, users, show), users, nodeLimit, true, show, email);
    } else {
      var t := AfterSync(s, tag, nodeLimit, users, show);
      PolicyIs(t.infos[tag], tag, show, Key(tag, LastOf(users, email).value, show));
    }
  }

  /** And so it does in an update. */
  lemma UpdateDenies(s: State, tag: string, users: seq<User>, show: int -> string, email: string)
    requires SlotsExist(s) && Separate(s) && NoBars(users) && LastOf(users, email).Some? && LastOf(users, email).value.denied
    requires Keyed(AfterUpdate(s, tag, users, show), show)
    ensures var t := AfterUpdate(s, tag, users, show);
            IsDenied(t, tag, email) && (InHub(t, tag, email) ==> Shut(t, tag, email, Slot(t, tag, email)))
  {
    if tag in s.infos {
      StoredLast(s.infos[tag].users, tag, users, show, email);
      UpdateIs(s, tag, users, show);
      DeliveryShuts(s, tag, UpdatedInfo(s, tag, users, show), users, s.infos[tag].nodeLimit, false, show, email);
    } else {
      StoredLast(map[], tag, users, show, email);
      var t := AfterUpdate(s, tag, users, show);
      PolicyIs(t.infos[tag], tag, show, Key(tag, LastOf(users, email).value, show));
    }
  }

  lemma DeliveryShuts(s: State, tag: string, info: Info, users: seq<User>, nodeLimit: nat, isSync: bool, show: int -> string, email: string)
    requires SlotsExist(s) && Separate(s) && tag in s.infos && info.hub == s.infos[tag].hub
    requires LastOf(users, email).Some? && LastOf(users, email).value.denied && LastOf(users, email).value.email == email
    requires var k := Key(tag, LastOf(users, email).value, show); k in info.users && info.users[k] == LastOf(users, email).value
    requires WellKeyed(info, tag, show)
    ensures var t := Applied(WithInfo(s, tag, info), tag, users, nodeLimit, isSync);
            && IsDenied(t, tag, email)
            && (InHub(t, tag, email) ==> Shut(t, tag, email, Slot(t, tag, email)))
  {
    var w := WithInfo(s, tag, info);
    var t := Applied(w, tag, users, nodeLimit, isSync);
    AppliedShape(w, tag, users, nodeLimit, isSync);
    PolicyIs(info, tag, show, Key(tag, LastOf(users, email).value, show));
    assert forall u, e :: InHub(w, u, e) == InHub(s, u, e) && (InHub(s, u, e) ==> Slot(w, u, e) == Slot(s, u, e));
    assert forall u, e :: InHub(t, u, e) == InHub(w, u, e) && (InHub(w, u, e) ==> Slot(t, u, e) == Slot(w, u, e));
    if InHub(t, tag, email) {
      AppliedCloses(w, tag, users, nodeLimit, isSync, email);
    }
  }

  // ----- over a run -----

  /** The lists of a delivery have no bars in their emails. */
  predicate Lawful(e: Event)
  {
    match e
    case Sync(_, _, users) => NoBars(users)
    case Update(_, users) => NoBars(users)
    case _ => true
  }

  /** A closed bucket stays closed as long as its user stays denied. */
  lemma StaysShut(s: State, e: Event, show: int -> string, tag: string, email: string, bucket: nat)
    requires Valid(s, show) && Lawful(e) && Keyed(Next(s, e, show), show)
    requires IsDenied(s, tag, email) && IsDenied(Next(s, e, show), tag, email) && Shut(s, tag, email, bucket)
    ensures Shut(Next(s, e, show), tag, email, bucket)
  {
    NextFollows(s, e, show);
    var t := Next(s, e, show);
    assert t.buckets[bucket] == CLOSED by {
      match e
      case SetUserSpeed(u, f, speed) => SpeedElsewhere(s, u, f, speed, tag, email, bucket);
      case Sync(u, nodeLimit, users) => if u in s.infos { SyncKeeps(s, u, nodeLimit, users, show, tag, email, bucket); }
      case Update(u, users) => if u in s.infos { UpdateKeeps(s, u, users, show, tag, email, bucket); }
      case _ =>
    }
  }

  lemma SyncKeeps(s: State, u: string, nodeLimit: nat, users: seq<User>, show: int -> string, tag: string, email: string, bucket: nat)
    requires Valid(s, show) && u in s.infos && NoBars(users) && Shut(s, tag, email, bucket)
    requires var t := AfterSync(s, u, nodeLimit, users, show); Keyed(t, show) && IsDenied(t, tag, email)
    ensures var t := AfterSync(s, u, nodeLimit, users, show); bucket < |t.buckets| && t.buckets[bucket] == CLOSED
  {
    SyncIs(s, u, nodeLimit, users, show);
    DeliveryKeeps(s, u, SyncedInfo(s, u, nodeLimit, users, show), users, nodeLimit, true, map[], show, tag, email, bucket);
  }

  lemma UpdateKeeps(s: State, u: string, users: seq<User>, show: int -> string, tag: string, email: string, bucket: nat)
    requires Valid(s, show) && u in s.infos && NoBars(users) && Shut(s, tag, email, bucket)
    requires var t := AfterUpdate(s, u, users, show); Keyed(t, show) && IsDenied(t, tag, email)
    ensures var t := AfterUpdate(s, u, users, show); bucket < |t.buckets| && t.buckets[bucket] == CLOSED
  {
    UpdateIs(s, u, users, show);
    DeliveryKeeps(s, u, UpdatedInfo(s, u, users, show), users, s.infos[u].nodeLimit, false, s.infos[u].users, show, tag, email, bucket);
  }

  lemma SpeedElsewhere(s: State, u: string, f: string, speed: nat, tag: string, email: string, bucket: nat)
    requires IsDenied(s, tag, email) && Shut(s, tag, email, bucket)
    ensures bucket < |AfterSetUserSpeed(s, u, f, speed).buckets| && AfterSetUserSpeed(s, u, f, speed).buckets[bucket] == CLOSED
  {
    if u in s.infos && InHub(s, u, f) && Slot(s, u, f) == bucket {
      assert u == tag && f == email;
    }
  }

  lemma DeliveryKeeps(s: State, u: string, info: Info, users: seq<User>, nodeLimit: nat, isSync: bool, stored: map<string, User>,
                      show: int -> string, tag: string, email: string, bucket: nat)
    requires Valid(s, show) && u in s.infos && info.hub == s.infos[u].hub && NoBars(users)
    requires info.users == Stored(stored, u, users, show) && WellKeyed(info, u, show)
    requires u == tag ==> Policy(info, email).Some? && Policy(info, email).value.denied
    requires Shut(s, tag, email, bucket)
    ensures var t := Applied(WithInfo(s, u, info), u, users, nodeLimit, isSync);
            bucket < |t.buckets| && t.buckets[bucket] == CLOSED
  {
    var w := WithInfo(s, u, info);
    AppliedShape(w, u, users, nodeLimit, isSync);
    assert forall v, e :: InHub(w, v, e) == InHub(s, v, e) && (InHub(s, v, e) ==> Slot(w, v, e) == Slot(s, v, e));
    if u == tag && InHub(s, tag, email) && Slot(s, tag, email) == bucket && LastOf(users, email).Some? {
      StoredLast(stored, u, users, show, email);
      PolicyIs(info, u, show, Key(u, LastOf(users, email).value, show));
      AppliedCloses(w, u, users, nodeLimit, isSync, email);
    } else {
      forall x | x in users && InHub(w, u, x.email) ensures Slot(w, u, x.email) != bucket {
        if Slot(w, u, x.email) == bucket {
          NotLast(users, x, email);
        }
      }
      AppliedElsewhere(w, u, users, nodeLimit, isSync, bucket);
    }
  }

  lemma {:induction false} NotLast(users: seq<User>, x: User, email: string)
    requires x in users && x.email == email
    ensures LastOf(users, email).Some?
  {
    if users[|users| - 1].email != email {
      NotLast(users[..|users| - 1], x, email);
    }
  }

  ghost function Run(s: State, events: seq<Event>, show: int -> string): State
  {
    if events == [] then s else Next(Run(s, events[..|events| - 1], show), events[|events| - 1], show)
  }

  lemma RunTakesAll(s: State, events: seq<Event>, e: Event, show: int -> string)
    ensures Run(s, [], show) == s && Run(s, events + [e], show) == Next(Run(s, events, show), e, show)
  {
    assert (events + [e])[..|events|] == events;
  }

  /** The policy of the user denies before, during and after the run. */
  ghost predicate DeniedThroughout(s: State, events: seq<Event>, show: int -> string, tag: string, email: string)
  {
    && IsDenied(Run(s, events, show), tag, email) && Keyed(Run(s, events, show), show)
    && (events != [] ==>
          Lawful(events[|events| - 1]) && DeniedThroughout(s, events[..|events| - 1], show, tag, email))
  }

  /** While a user is denied, it is turned away, and a bucket that was closed for it stays closed. */
  lemma {:induction false} DeniedStaysOut(s: State, events: seq<Event>, show: int -> string, tag: string, email: string, bucket: nat)
    requires Valid(s, show) && Shut(s, tag, email, bucket) && DeniedThroughout(s, events, show, tag, email)
    ensures var t := Run(s, events, show);
            && Valid(t, show) && Shut(t, tag, email, bucket)
            && (forall ip: string :: AfterGetUserBucket(t, tag, email, ip) == t)
  {
    if events != [] {
      var init, last := events[..|events| - 1], events[|events| - 1];
      DeniedStaysOut(s, init, show, tag, email, bucket);
      var before := Run(s, init, show);
      NextFollows(before, last, show);
      FollowsValid(before, Next(before, last, show));
      StaysShut(before, last, show, tag, email, bucket);
    }
  }

  // ----- the writer of a link -----

  /** What the chunks of a write ask the bucket for: as much as the burst allows, until nothing is left. */
  function Chunks(n: nat, burst: nat): seq<nat>
    requires burst > 0
    decreases n
  {
    if n == 0 then [] else if n <= burst then [n] else [burst] + Chunks(n - burst, burst)
  }

  function Sum(s: seq<nat>): nat
  {
    if s == [] then 0 else s[0] + Sum(s[1..])
  }

  lemma {:induction false} ChunksCover(n: nat, burst: nat)
    requires burst > 0
    ensures Sum(Chunks(n, burst)) == n
    ensures forall k :: k in Chunks(n, burst) ==> 0 < k <= burst
    ensures forall i :: 0 <= i < |Chunks(n, burst)| - 1 ==> Chunks(n, burst)[i] == burst
    decreases n
  {
    if n > burst {
      ChunksCover(n - burst, burst);
      assert ([burst] + Chunks(n - burst, burst))[1..] == Chunks(n - burst, burst);
    } else if n > 0 {
      assert [n][1..] == [];
    }
  }

  /** A write gets through when nothing limits it, or when every chunk is granted. */
  predicate WriteSucceeds(n: nat, bucket: Bucket, granted: nat -> bool)
  {
    || n == 0 || bucket.limit.Unlimited?
    || (bucket.burst > 0 && forall i :: 0 <= i < |Chunks(n, bucket.burst)| ==> granted(i))
  }

  lemma NextChunk(asked: seq<nat>, left: nat, burst: nat)
    requires left > 0 && burst > 0
    ensures var take := if left > burst then burst else left;
            && asked + Chunks(left, burst) == (asked + [take]) + Chunks(left - take, burst)
            && asked <= asked + Chunks(left, burst) && asked != asked + Chunks(left, burst)
  {
    var take := if left > burst then burst else left;
    assert Chunks(left, burst) == [take] + Chunks(left - take, burst);
    assert |asked + Chunks(left, burst)| > |asked|;
  }

  /** Asks for chunk after chunk, up to the first that is refused. */
  method Ask(n: nat, burst: nat, granted: nat -> bool) returns (written: bool, asked: seq<nat>)
    requires burst > 0
    ensures asked <= Chunks(n, burst) && (forall i :: 0 <= i < |asked| ==> granted(i))
    ensures written <==> asked == Chunks(n, burst)
    ensures !written ==> !granted(|asked|)
  {
    asked := [];
    var left := n;
    ghost var chunks := Chunks(n, burst);
    while left > 0
      invariant 0 <= left <= n && chunks == asked + Chunks(left, burst)
      invariant forall i :: 0 <= i < |asked| ==> granted(i)
    {
      var take := if left > burst then burst else left;
      NextChunk(asked, left, burst);
      if !granted(|asked|) {
        return false, asked;
      }
      asked := asked + [take];
      left := left - take;
    }
    written := true;
  }

  /** Writes `n` bytes once the bucket has granted every chunk. The waits may fail, because the link
      is closed or because the bucket has been closed since. */
  method WriteMultiBuffer(n: nat, bucket: Bucket, granted: nat -> bool) returns (written: bool, asked: seq<nat>)
    ensures written <==> WriteSucceeds(n, bucket, granted)
    ensures n == 0 || bucket.limit == Unlimited ==> written && asked == []
    ensures n > 0 && bucket.limit != Unlimited && bucket.burst <= 0 ==> !written
    ensures n > 0 && bucket.limit != Unlimited && bucket.burst > 0 ==>
              && asked <= Chunks(n, bucket.burst) && (forall i :: 0 <= i < |asked| ==> granted(i))
              && (written <==> asked == Chunks(n, bucket.burst)) && (!written ==> !granted(|asked|))
              && (written ==> Sum(asked) == n)
  {
    if n == 0 || bucket.limit.Unlimited? {
      return true, [];
    }
    if bucket.burst <= 0 {
      return false, [];
    }
    written, asked := Ask(n, bucket.burst, granted);
    ChunksCover(n, bucket.burst);
  }

  /** A link that holds the bucket a denied user had when it was denied writes nothing any more. */
  lemma DeniedLinkIsSilent(s: State, events: seq<Event>, show: int -> string, tag: string, email: string, bucket: nat,
                           n: nat, granted: nat -> bool)
    requires Valid(s, show) && Shut(s, tag, email, bucket) && DeniedThroughout(s, events, show, tag, email)
    ensures var t := Run(s, events, show);
            bucket < |t.buckets| && (WriteSucceeds(n, t.buckets[bucket], granted) <==> n == 0)
  {
    DeniedStaysOut(s, events, show, tag, email, bucket);
  }
}

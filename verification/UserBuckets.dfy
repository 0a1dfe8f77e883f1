/** Per-user rate buckets, shared with the links that were opened with them, and the policy that
    denies a user. */
module UserBuckets {
  import opened Json
  import ConnCounts

  datatype Rate = Finite(bytesPerSecond: nat) | Unlimited

  /** A token bucket. Links keep a reference to it, here its number, for as long as they live. */
  datatype Bucket = Bucket(limit: Rate, burst: int)

  const CLOSED := Bucket(Finite(0), 0)
  const MAX_INT := 0x7FFF_FFFF_FFFF_FFFF

  datatype User = User(uid: int, email: string, speedLimit: nat, deviceLimit: int, connGroup: string, denied: bool)

  /** One inbound: its users under "tag|email|uid", the bucket of each email, and who was seen. */
  datatype Info = Info(nodeLimit: nat, users: map<string, User>, hub: map<string, nat>, online: map<string, set<string>>)

  datatype State = State(infos: map<string, Info>, buckets: seq<Bucket>, autoLimited: set<string>)

  // ----- rates -----

  function DetermineRate(nodeLimit: nat, userLimit: nat): (r: nat)
    ensures r == 0 <==> nodeLimit == 0 && userLimit == 0
    ensures nodeLimit > 0 ==> r <= nodeLimit
    ensures userLimit > 0 ==> r <= userLimit
    ensures r == nodeLimit || r == userLimit
  {
    if nodeLimit == 0 then userLimit else if userLimit == 0 || nodeLimit < userLimit then nodeLimit else userLimit
  }

  /** A quarter of a second's worth, between 64 and 256 KiB. */
  function CalcBurst(rate: nat): int
  {
    if rate / 4 < 0x1_0000 then 0x1_0000 else if rate / 4 > 0x4_0000 then 0x4_0000 else rate / 4
  }

  function BucketFor(rate: nat): Bucket
  {
    if rate > 0 then Bucket(Finite(rate), CalcBurst(rate)) else Bucket(Unlimited, MAX_INT)
  }

  /** A rate in bytes per second, with a burst of a quarter of a second's worth that is kept between 64
      and 256 KiB. */
  predicate Paced(b: Bucket, rate: nat)
  {
    && b.limit == Finite(rate)
    && 65536 <= b.burst <= 262144
    && (b.burst > 65536 ==> 4 * b.burst <= rate)
    && (b.burst < 262144 ==> rate < 4 * b.burst + 4)
  }

  /** The tighter of two limits, where zero is none; without any limit the bucket never runs dry. */
  predicate Limits(b: Bucket, nodeLimit: nat, userLimit: nat)
  {
    if nodeLimit == 0 && userLimit == 0 then b == Bucket(Unlimited, 0x7FFF_FFFF_FFFF_FFFF)
    else if userLimit == 0 || 0 < nodeLimit <= userLimit then Paced(b, nodeLimit)
    else Paced(b, userLimit)
  }

  lemma BucketForLimits(nodeLimit: nat, userLimit: nat)
    ensures Limits(BucketFor(DetermineRate(nodeLimit, userLimit)), nodeLimit, userLimit)
    ensures nodeLimit > 0 ==> Paced(BucketFor(nodeLimit), nodeLimit)
  {
  }

  // ----- the policy of a user -----

  function Key(tag: string, u: User, show: int -> string): string
  {
    tag + "|" + u.email + "|" + show(u.uid)
  }

  predicate KeyMatches(key: string, tag: string, email: string)
  {
    tag + "|" + email + "|" <= key
  }

  /** Every user is stored under its own key, no email holds a bar, and no email has two uids. */
  ghost predicate WellKeyed(info: Info, tag: string, show: int -> string)
  {
    && (forall k :: k in info.users ==> k == Key(tag, info.users[k], show) && '|' !in info.users[k].email)
    && (forall j, k :: j in info.users && k in info.users && info.users[j].email == info.users[k].email ==> j == k)
  }

  /** Looking a user up by prefix finds the one with that email. */
  lemma PrefixFindsEmail(tag: string, u: User, email: string, show: int -> string)
    requires '|' !in u.email && '|' !in email
    ensures KeyMatches(Key(tag, u, show), tag, email) <==> u.email == email
  {
    var key, prefix := Key(tag, u, show), tag + "|" + email + "|";
    var n := |tag| + 1;
    if u.email == email {
      assert key == prefix + show(u.uid);
    } else if |email| < |u.email| {
      assert prefix[n + |email|] == '|' && key[n + |email|] == u.email[|email|];
    } else if |u.email| < |email| {
      assert key[n + |u.email|] == '|' && prefix[n + |u.email|] == email[|u.email|];
    } else {
      var i :| 0 <= i < |email| && email[i] != u.email[i];
      assert prefix[n + i] == email[i] && key[n + i] == u.email[i];
    }
  }

  ghost predicate HasPolicy(info: Info, email: string, u: User)
  {
    exists k :: k in info.users && info.users[k] == u && u.email == email
  }

  ghost function Policy(info: Info, email: string): Option<User>
  {
    if exists u :: HasPolicy(info, email, u) then
      var u :| HasPolicy(info, email, u);
      Some(u)
    else None
  }

  lemma PolicyIs(info: Info, tag: string, show: int -> string, k: string)
    requires WellKeyed(info, tag, show) && k in info.users
    ensures Policy(info, info.users[k].email) == Some(info.users[k])
  {
    assert HasPolicy(info, info.users[k].email, info.users[k]);
  }

  ghost predicate IsDenied(s: State, tag: string, email: string)
  {
    tag in s.infos && Policy(s.infos[tag], email).Some? && Policy(s.infos[tag], email).value.denied
  }

  // ----- the state -----

  predicate InHub(s: State, tag: string, email: string)
  {
    tag in s.infos && email in s.infos[tag].hub
  }

  function Slot(s: State, tag: string, email: string): nat
    requires InHub(s, tag, email)
  {
    s.infos[tag].hub[email]
  }

  ghost predicate Keyed(s: State, show: int -> string)
  {
    forall tag :: tag in s.infos ==> WellKeyed(s.infos[tag], tag, show)
  }

  ghost predicate SlotsExist(s: State)
  {
    forall tag, email :: InHub(s, tag, email) ==> Slot(s, tag, email) < |s.buckets|
  }

  /** No two users share a bucket. */
  ghost predicate Separate(s: State)
  {
    forall t, e, u, f :: InHub(s, t, e) && InHub(s, u, f) && Slot(s, t, e) == Slot(s, u, f) ==> t == u && e == f
  }

  ghost predicate Valid(s: State, show: int -> string)
  {
    Keyed(s, show) && SlotsExist(s) && Separate(s)
  }

  // ----- the operations -----

  datatype Access = NoLimiter | Limited(bucket: nat) | Reject

  function Seen(info: Info, email: string, ip: string): Info
  {
    info.(online := info.online[email := (if email in info.online then info.online[email] else {}) + {ip}])
  }

  function WithInfo(s: State, tag: string, info: Info): State
  {
    s.(infos := s.infos[tag := info])
  }

  /** The bucket of an email, made when there is none. */
  function WithBucket(s: State, tag: string, email: string, fresh_: Bucket): State
    requires tag in s.infos
  {
    if email in s.infos[tag].hub then s
    else
      s.(infos := s.infos[tag := s.infos[tag].(hub := s.infos[tag].hub[email := |s.buckets|])], buckets := s.buckets + [fresh_])
  }

  function SetBucket(s: State, tag: string, email: string, b: Bucket): State
  {
    if InHub(s, tag, email) && Slot(s, tag, email) < |s.buckets| then s.(buckets := s.buckets[Slot(s, tag, email) := b]) else s
  }

  ghost function SpeedOf(info: Info, email: string): nat
  {
    DetermineRate(info.nodeLimit, if Policy(info, email).Some? then Policy(info, email).value.speedLimit else 0)
  }

  ghost function AfterGetUserBucket(s: State, tag: string, email: string, ip: string): State
  {
    if tag !in s.infos || IsDenied(s, tag, email) then s
    else
      var t := WithInfo(s, tag, Seen(s.infos[tag], email, ip));
      WithBucket(t, tag, email, BucketFor(SpeedOf(s.infos[tag], email)))
  }

  ghost function AfterSetUserSpeed(s: State, tag: string, email: string, speed: nat): State
  {
    if tag !in s.infos then s
    else if IsDenied(s, tag, email) then SetBucket(s, tag, email, CLOSED)
    else if speed > 0 then
      var t := s.(autoLimited := s.autoLimited + {email});
      if InHub(s, tag, email) then SetBucket(t, tag, email, BucketFor(speed)) else WithBucket(t, tag, email, BucketFor(speed))
    else
      SetBucket(s.(autoLimited := s.autoLimited - {email}), tag, email, BucketFor(SpeedOf(s.infos[tag], email)))
  }

  function AfterGetOnlineUsers(s: State, tag: string): State
  {
    if tag !in s.infos then s
    else
      var info := s.infos[tag];
      var hub := map e | e in info.hub && (e in info.online || e in s.autoLimited) :: info.hub[e];
      WithInfo(s, tag, info.(hub := hub, online := map[]))
  }

  /** Applies the policies one after the other to the buckets that exist. A static limit of zero
      leaves the bucket alone in an update and opens it in a sync. */
  function Applied(s: State, tag: string, users: seq<User>, nodeLimit: nat, isSync: bool): State
  {
    if users == [] then s
    else
      var t, u := Applied(s, tag, users[..|users| - 1], nodeLimit, isSync), users[|users| - 1];
      var rate := DetermineRate(nodeLimit, u.speedLimit);
      if u.denied then SetBucket(t, tag, u.email, CLOSED)
      else if rate > 0 || isSync then SetBucket(t, tag, u.email, BucketFor(rate))
      else t
  }

  function Stored(stored: map<string, User>, tag: string, users: seq<User>, show: int -> string): map<string, User>
  {
    if users == [] then stored
    else Stored(stored, tag, users[..|users| - 1], show)[Key(tag, users[|users| - 1], show) := users[|users| - 1]]
  }

  /** No later user is stored under the key of this one. */
  ghost predicate LastOfKey(tag: string, users: seq<User>, i: int, show: int -> string)
    requires 0 <= i < |users|
  {
    forall j :: i < j < |users| ==> Key(tag, users[j], show) != Key(tag, users[i], show)
  }

  /** What was stored with the users over it: under each of their keys stands the last of these users,
      and every other key is left as it was. */
  ghost predicate StoredLast(r: map<string, User>, stored: map<string, User>, tag: string, users: seq<User>, show: int -> string)
  {
    && (forall k :: k in r ==> k in stored || exists i :: 0 <= i < |users| && Key(tag, users[i], show) == k)
    && (forall i :: 0 <= i < |users| ==> Key(tag, users[i], show) in r)
    && (forall i :: 0 <= i < |users| && LastOfKey(tag, users, i, show) ==> r[Key(tag, users[i], show)] == users[i])
    && (forall k :: k in stored && (forall i :: 0 <= i < |users| ==> Key(tag, users[i], show) != k) ==> k in r && r[k] == stored[k])
    && stored.Keys <= r.Keys
  }

  lemma KeyText(tag: string, u: User, show: int -> string)
    ensures Key(tag, u, show) == tag + "|" + u.email + "|" + show(u.uid)
  {
  }

  lemma NoneStored(stored: map<string, User>, tag: string, show: int -> string)
    ensures StoredLast(stored, stored, tag, [], show)
  {
  }

  lemma {:induction false} StoredMeans(stored: map<string, User>, tag: string, users: seq<User>, show: int -> string)
    ensures StoredLast(Stored(stored, tag, users, show), stored, tag, users, show)
  {
    if users == [] {
      NoneStored(stored, tag, show);
    } else {
      var before, last := users[..|users| - 1], users[|users| - 1];
      assert before + [last] == users;
      StoredMeans(stored, tag, before, show);
      OneMoreStored(Stored(stored, tag, before, show), stored, tag, before, last, show);
    }
  }

  lemma OneMoreStored(r: map<string, User>, stored: map<string, User>, tag: string, before: seq<User>, last: User, show: int -> string)
    requires StoredLast(r, stored, tag, before, show)
    ensures StoredLast(r[Key(tag, last, show) := last], stored, tag, before + [last], show)
  {
    var users := before + [last];
    var after := r[Key(tag, last, show) := last];
    assert users[|before|] == last && forall i :: 0 <= i < |before| ==> users[i] == before[i];
    forall i | 0 <= i < |users| && LastOfKey(tag, users, i, show) ensures after[Key(tag, users[i], show)] == users[i] {
      LastAmongMore(tag, before, last, i, show);
    }
    forall k | k in after ensures k in stored || exists i :: 0 <= i < |users| && Key(tag, users[i], show) == k {
      if k in r && k !in stored {
        var i :| 0 <= i < |before| && Key(tag, before[i], show) == k;
        assert users[i] == before[i];
      } else if k !in stored {
        assert Key(tag, users[|before|], show) == k;
      }
    }
  }

  lemma LastAmongMore(tag: string, before: seq<User>, last: User, i: nat, show: int -> string)
    requires i <= |before| && LastOfKey(tag, before + [last], i, show)
    ensures i < |before| ==> LastOfKey(tag, before, i, show) && Key(tag, before[i], show) != Key(tag, last, show)
  {
    var users := before + [last];
    assert users[|before|] == last && forall j :: 0 <= j < |before| ==> users[j] == before[j];
  }

  lemma {:induction false} LastWithKey(tag: string, users: seq<User>, n: nat, show: int -> string) returns (i: nat)
    requires n < |users|
    ensures i < |users| && Key(tag, users[i], show) == Key(tag, users[n], show) && LastOfKey(tag, users, i, show)
    decreases |users| - n
  {
    i := n;
    if !LastOfKey(tag, users, n, show) {
      var m :| n < m < |users| && Key(tag, users[m], show) == Key(tag, users[n], show);
      i := LastWithKey(tag, users, m, show);
    }
  }

  lemma StoredAt(a: map<string, User>, tag: string, users: seq<User>, show: int -> string, i: nat)
    requires StoredLast(a, map[], tag, users, show) && i < |users| && LastOfKey(tag, users, i, show)
    ensures Key(tag, users[i], show) in a && a[Key(tag, users[i], show)] == users[i]
  {
  }

  lemma KeyGiven(a: map<string, User>, tag: string, users: seq<User>, show: int -> string, k: string) returns (i: nat)
    requires StoredLast(a, map[], tag, users, show) && k in a
    ensures i < |users| && Key(tag, users[i], show) == k && LastOfKey(tag, users, i, show)
  {
    var n :| 0 <= n < |users| && Key(tag, users[n], show) == k;
    i := LastWithKey(tag, users, n, show);
  }

  lemma StoredLastUnique(a: map<string, User>, b: map<string, User>, tag: string, users: seq<User>, show: int -> string)
    requires StoredLast(a, map[], tag, users, show) && StoredLast(b, map[], tag, users, show)
    ensures a == b
  {
    forall k | k in a ensures k in b && a[k] == b[k] {
      var i := KeyGiven(a, tag, users, show, k);
      StoredAt(a, tag, users, show, i);
      StoredAt(b, tag, users, show, i);
    }
    forall k | k in b ensures k in a {
      var i := KeyGiven(b, tag, users, show, k);
      StoredAt(a, tag, users, show, i);
    }
  }

  /** Replaces the policies of an inbound and keeps its buckets. */
  function AfterSync(s: State, tag: string, nodeLimit: nat, users: seq<User>, show: int -> string): State
  {
    var policies := Stored(map[], tag, users, show);
    if tag !in s.infos then WithInfo(s, tag, Info(nodeLimit, policies, map[], map[]))
    else
      var info := s.infos[tag].(nodeLimit := nodeLimit, users := policies);
      Applied(WithInfo(s, tag, info), tag, users, nodeLimit, true)
  }

  /** Adds policies to those of an inbound, or replaces them. */
  function AfterUpdate(s: State, tag: string, users: seq<User>, show: int -> string): State
  {
    if tag !in s.infos then WithInfo(s, tag, Info(0, Stored(map[], tag, users, show), map[], map[]))
    else
      var info := s.infos[tag];
      Applied(WithInfo(s, tag, info.(users := Stored(info.users, tag, users, show))), tag, users, info.nodeLimit, false)
  }

  function AfterDelete(s: State, tag: string): State
  {
    s.(infos := s.infos - {tag})
  }

  // ----- what the operations do to the bucket of a user -----

  /** The bucket that links of the user are opened with. */
  function BucketOf(s: State, tag: string, email: string): Option<Bucket>
  {
    if tag in s.infos && email in s.infos[tag].hub && s.infos[tag].hub[email] < |s.buckets|
    then Some(s.buckets[s.infos[tag].hub[email]]) else None
  }

  /** Every other user keeps the bucket, and every other inbound everything. */
  ghost predicate OnlyFor(s: State, t: State, tag: string, email: string)
  {
    && (forall u, e :: (u != tag || e != email) ==> BucketOf(t, u, e) == BucketOf(s, u, e))
    && t.infos.Keys == s.infos.Keys && (forall u :: u in s.infos && u != tag ==> t.infos[u] == s.infos[u])
  }

  lemma SetBucketMeans(s: State, tag: string, email: string, b: Bucket)
    requires SlotsExist(s) && Separate(s)
    ensures var t := SetBucket(s, tag, email, b);
            && OnlyFor(s, t, tag, email) && t.infos == s.infos && t.autoLimited == s.autoLimited
            && BucketOf(t, tag, email) == if tag in s.infos && email in s.infos[tag].hub then Some(b) else None
  {
    var t := SetBucket(s, tag, email, b);
    assert tag in s.infos && email in s.infos[tag].hub ==> InHub(s, tag, email);
    forall u, e | u != tag || e != email ensures BucketOf(t, u, e) == BucketOf(s, u, e) {
      if InHub(s, u, e) && InHub(s, tag, email) {
        assert Slot(s, u, e) != Slot(s, tag, email);
      }
    }
  }

  lemma WithBucketMeans(s: State, tag: string, email: string, b: Bucket)
    requires SlotsExist(s) && tag in s.infos && email !in s.infos[tag].hub
    ensures var t := WithBucket(s, tag, email, b);
            && OnlyFor(s, t, tag, email) && BucketOf(t, tag, email) == Some(b) && t.autoLimited == s.autoLimited
            && t.infos[tag] == s.infos[tag].(hub := t.infos[tag].hub)
  {
    var t := WithBucket(s, tag, email, b);
    forall u, e | u != tag || e != email ensures BucketOf(t, u, e) == BucketOf(s, u, e) {
      assert InHub(t, u, e) <==> InHub(s, u, e);
      if InHub(s, u, e) {
        assert Slot(t, u, e) == Slot(s, u, e) < |s.buckets|;
      }
    }
  }

  lemma SeenMeans(info: Info, email: string, ip: string)
    ensures Seen(info, email, ip).online == info.online[email := if email in info.online then info.online[email] + {ip} else {ip}]
  {
    var nobody: set<string> := {};
    assert nobody + {ip} == {ip};
  }

  /** A user is denied when the policy stored for the email says so. */
  lemma DeniedMeans(s: State, tag: string, email: string, show: int -> string)
    requires tag in s.infos ==> WellKeyed(s.infos[tag], tag, show)
    ensures IsDenied(s, tag, email) <==>
              tag in s.infos && exists k :: k in s.infos[tag].users && s.infos[tag].users[k].email == email && s.infos[tag].users[k].denied
  {
    if tag in s.infos {
      var users := s.infos[tag].users;
      if k :| k in users && users[k].email == email {
        PolicyIs(s.infos[tag], tag, show, k);
        assert forall j :: j in users && users[j].email == email ==> j == k;
      } else {
        assert forall u :: !HasPolicy(s.infos[tag], email, u);
      }
    }
  }

  /** A denied user gets no bucket, and neither does anybody on an inbound without a limiter; deleting an
      inbound drops its policies and buckets' names, and nothing else. */
  lemma NothingGiven(s: State, tag: string, email: string, ip: string)
    ensures tag !in s.infos || IsDenied(s, tag, email) ==> AfterGetUserBucket(s, tag, email, ip) == s
    ensures AfterDelete(s, tag) == s.(infos := map t | t in s.infos && t != tag :: s.infos[t])
  {
    assert s.infos - {tag} == map t | t in s.infos && t != tag :: s.infos[t];
  }

  /** A link of a user who is not denied gets the bucket of the email. A new one limits it to what
      the inbound and the policy say; one that exists is left as it is. The address is noted. */
  lemma BucketGiven(s: State, tag: string, email: string, ip: string)
    requires SlotsExist(s) && tag in s.infos && !IsDenied(s, tag, email)
    ensures var t := AfterGetUserBucket(s, tag, email, ip);
            var own := if Policy(s.infos[tag], email).Some? then Policy(s.infos[tag], email).value.speedLimit else 0;
            && OnlyFor(s, t, tag, email) && BucketOf(t, tag, email).Some? && t.autoLimited == s.autoLimited
            && (if email in s.infos[tag].hub then BucketOf(t, tag, email) == BucketOf(s, tag, email)
                else Limits(BucketOf(t, tag, email).value, s.infos[tag].nodeLimit, own))
            && t.infos[tag].nodeLimit == s.infos[tag].nodeLimit && t.infos[tag].users == s.infos[tag].users
            && t.infos[tag].online ==
                 s.infos[tag].online[email := if email in s.infos[tag].online then s.infos[tag].online[email] + {ip} else {ip}]
  {
    var own := if Policy(s.infos[tag], email).Some? then Policy(s.infos[tag], email).value.speedLimit else 0;
    var t := WithInfo(s, tag, Seen(s.infos[tag], email, ip));
    BucketForLimits(s.infos[tag].nodeLimit, own);
    SlotsKept(s, tag, Seen(s.infos[tag], email, ip));
    SeenMeans(s.infos[tag], email, ip);
    if email in s.infos[tag].hub {
      assert InHub(s, tag, email) && Slot(s, tag, email) < |s.buckets|;
      assert forall u, e :: BucketOf(t, u, e) == BucketOf(s, u, e);
    } else {
      WithBucketMeans(t, tag, email, BucketFor(SpeedOf(s.infos[tag], email)));
    }
  }

  lemma SlotsStay(s: State, autoLimited: set<string>)
    requires SlotsExist(s)
    ensures SlotsExist(s.(autoLimited := autoLimited)) && (Separate(s) ==> Separate(s.(autoLimited := autoLimited)))
  {
    var t := s.(autoLimited := autoLimited);
    assert forall u, e :: InHub(t, u, e) == InHub(s, u, e) && (InHub(s, u, e) ==> Slot(t, u, e) == Slot(s, u, e));
  }

  /** An automatic limit paces the user until it is lifted; then the static limits are back. The
      bucket of a denied user stays closed. */
  lemma SpeedSet(s: State, tag: string, email: string, speed: nat)
    requires SlotsExist(s) && Separate(s) && tag in s.infos
    ensures var t := AfterSetUserSpeed(s, tag, email, speed);
            var own := if Policy(s.infos[tag], email).Some? then Policy(s.infos[tag], email).value.speedLimit else 0;
            var bucket := BucketOf(t, tag, email);
            && OnlyFor(s, t, tag, email)
            && (IsDenied(s, tag, email) ==> t.autoLimited == s.autoLimited && (bucket == None || bucket == Some(Bucket(Finite(0), 0))))
            && (!IsDenied(s, tag, email) && speed > 0 ==>
                  t.autoLimited == s.autoLimited + {email} && bucket.Some? && Paced(bucket.value, speed))
            && (!IsDenied(s, tag, email) && speed == 0 ==>
                  && t.autoLimited == s.autoLimited - {email}
                  && (bucket.Some? <==> email in s.infos[tag].hub)
                  && (bucket.Some? ==> Limits(bucket.value, s.infos[tag].nodeLimit, own)))
  {
    var own := if Policy(s.infos[tag], email).Some? then Policy(s.infos[tag], email).value.speedLimit else 0;
    BucketForLimits(s.infos[tag].nodeLimit, own);
    BucketForLimits(speed, 0);
    SlotsStay(s, s.autoLimited + {email});
    SlotsStay(s, s.autoLimited - {email});
    if IsDenied(s, tag, email) {
      SetBucketMeans(s, tag, email, CLOSED);
    } else if speed == 0 {
      SetBucketMeans(s.(autoLimited := s.autoLimited - {email}), tag, email, BucketFor(SpeedOf(s.infos[tag], email)));
    } else if email in s.infos[tag].hub {
      SetBucketMeans(s.(autoLimited := s.autoLimited + {email}), tag, email, BucketFor(speed));
    } else {
      WithBucketMeans(s.(autoLimited := s.autoLimited + {email}), tag, email, BucketFor(speed));
    }
  }

  /** A policy writes the bucket of its user, unless an update finds no static limit for it. */
  predicate Writes(u: User, nodeLimit: nat, isSync: bool)
  {
    u.denied || nodeLimit > 0 || u.speedLimit > 0 || isSync
  }

  predicate WrittenAs(b: Bucket, u: User, nodeLimit: nat)
  {
    if u.denied then b == Bucket(Finite(0), 0) else Limits(b, nodeLimit, u.speedLimit)
  }

  /** The last policy of the email that writes decides about a bucket that exists; without one it is
      left as it is. */
  ghost predicate Decides(before: Option<Bucket>, after: Option<Bucket>, email: string, users: seq<User>, nodeLimit: nat, isSync: bool)
  {
    && (before.Some? <==> after.Some?)
    && (before.Some? ==>
          || (after == before && forall i :: 0 <= i < |users| ==> users[i].email != email || !Writes(users[i], nodeLimit, isSync))
          || exists i :: 0 <= i < |users| && users[i].email == email && Writes(users[i], nodeLimit, isSync)
                         && WrittenAs(after.value, users[i], nodeLimit)
                         && forall j :: i < j < |users| ==> users[j].email != email || !Writes(users[j], nodeLimit, isSync))
  }

  lemma DecidesNext(before: Option<Bucket>, now: Option<Bucket>, email: string, users: seq<User>, u: User, nodeLimit: nat, isSync: bool)
    requires Decides(before, now, email, users, nodeLimit, isSync)
    ensures u.email != email || !Writes(u, nodeLimit, isSync) ==> Decides(before, now, email, users + [u], nodeLimit, isSync)
    ensures u.email == email && Writes(u, nodeLimit, isSync) ==>
              forall b :: WrittenAs(b, u, nodeLimit) ==>
                Decides(before, if now.Some? then Some(b) else None, email, users + [u], nodeLimit, isSync)
  {
    var all := users + [u];
    assert all[|users|] == u && forall i :: 0 <= i < |users| ==> all[i] == users[i];
    if i :| 0 <= i < |users| && users[i].email == email && Writes(users[i], nodeLimit, isSync)
            && now.Some? && WrittenAs(now.value, users[i], nodeLimit)
            && forall j :: i < j < |users| ==> users[j].email != email || !Writes(users[j], nodeLimit, isSync) {
      assert all[i] == users[i];
    }
  }

  lemma SeparateStays(s: State, t: State)
    requires SlotsExist(s) && Separate(s) && t == s.(buckets := t.buckets) && |t.buckets| == |s.buckets|
    ensures SlotsExist(t) && Separate(t)
  {
    assert forall u, e :: InHub(t, u, e) == InHub(s, u, e) && (InHub(s, u, e) ==> Slot(t, u, e) == Slot(s, u, e));
  }

  /** One policy writes its user's bucket and no other. */
  lemma AppliedOne(s: State, tag: string, users: seq<User>, nodeLimit: nat, isSync: bool, email: string)
    requires users != [] && SlotsExist(s) && Separate(s)
    ensures var before := BucketOf(Applied(s, tag, users[..|users| - 1], nodeLimit, isSync), tag, email);
            var u := users[|users| - 1];
            var after := BucketOf(Applied(s, tag, users, nodeLimit, isSync), tag, email);
            if u.email == email && Writes(u, nodeLimit, isSync)
            then before.Some? == after.Some? && (after.Some? ==> WrittenAs(after.value, u, nodeLimit))
            else after == before
  {
    var t, u := Applied(s, tag, users[..|users| - 1], nodeLimit, isSync), users[|users| - 1];
    AppliedShape(s, tag, users[..|users| - 1], nodeLimit, isSync);
    SeparateStays(s, t);
    BucketForLimits(nodeLimit, u.speedLimit);
    if u.denied {
      SetBucketMeans(t, tag, u.email, CLOSED);
    } else {
      SetBucketMeans(t, tag, u.email, BucketFor(DetermineRate(nodeLimit, u.speedLimit)));
    }
  }

  lemma {:induction false} AppliedDecides(s: State, tag: string, users: seq<User>, nodeLimit: nat, isSync: bool, email: string)
    requires SlotsExist(s) && Separate(s)
    ensures Decides(BucketOf(s, tag, email), BucketOf(Applied(s, tag, users, nodeLimit, isSync), tag, email), email, users, nodeLimit, isSync)
  {
    if users != [] {
      var init, u := users[..|users| - 1], users[|users| - 1];
      assert init + [u] == users;
      AppliedDecides(s, tag, init, nodeLimit, isSync, email);
      AppliedOne(s, tag, users, nodeLimit, isSync, email);
      DecidesNext(BucketOf(s, tag, email), BucketOf(Applied(s, tag, init, nodeLimit, isSync), tag, email), email, init, u, nodeLimit, isSync);
    }
  }

  lemma {:induction false} AppliedElsewhere(s: State, tag: string, users: seq<User>, nodeLimit: nat, isSync: bool)
    requires SlotsExist(s) && Separate(s)
    ensures forall u, e :: u != tag ==> BucketOf(Applied(s, tag, users, nodeLimit, isSync), u, e) == BucketOf(s, u, e)
  {
    if users != [] {
      var init, last := users[..|users| - 1], users[|users| - 1];
      var t := Applied(s, tag, init, nodeLimit, isSync);
      AppliedElsewhere(s, tag, init, nodeLimit, isSync);
      AppliedShape(s, tag, init, nodeLimit, isSync);
      SeparateStays(s, t);
      SetBucketMeans(t, tag, last.email, CLOSED);
      SetBucketMeans(t, tag, last.email, BucketFor(DetermineRate(nodeLimit, last.speedLimit)));
    }
  }

  /** Nothing but one inbound has changed. */
  ghost predicate OnlyIn(s: State, t: State, tag: string)
  {
    && t.infos.Keys == s.infos.Keys + {tag} && t.autoLimited == s.autoLimited
    && (forall u :: u in s.infos && u != tag ==> t.infos[u] == s.infos[u])
    && (forall u, e :: u != tag ==> BucketOf(t, u, e) == BucketOf(s, u, e))
  }

  /** Storing the policies of an inbound moves no bucket. */
  lemma PoliciesMoveNothing(s: State, tag: string, info: Info)
    requires SlotsExist(s) && Separate(s) && info.hub == (if tag in s.infos then s.infos[tag].hub else map[])
    ensures var t := WithInfo(s, tag, info);
            && SlotsExist(t) && Separate(t) && OnlyIn(s, t, tag)
            && forall e :: BucketOf(t, tag, e) == BucketOf(s, tag, e)
  {
    var t := WithInfo(s, tag, info);
    assert forall u, e :: InHub(t, u, e) == InHub(s, u, e) && (InHub(s, u, e) ==> Slot(t, u, e) == Slot(s, u, e));
  }

  /** A sync replaces the policies of the inbound and its limit, keeps its buckets and who was seen,
      and sets each bucket as the last policy of its user says. */
  lemma SyncMeans(s: State, tag: string, nodeLimit: nat, users: seq<User>, show: int -> string, email: string)
    requires SlotsExist(s) && Separate(s)
    ensures var t := AfterSync(s, tag, nodeLimit, users, show);
            && OnlyIn(s, t, tag) && t.infos[tag].nodeLimit == nodeLimit && StoredLast(t.infos[tag].users, map[], tag, users, show)
            && t.infos[tag].hub == (if tag in s.infos then s.infos[tag].hub else map[])
            && t.infos[tag].online == (if tag in s.infos then s.infos[tag].online else map[])
            && Decides(BucketOf(s, tag, email), BucketOf(t, tag, email), email, users, nodeLimit, true)
  {
    var policies := Stored(map[], tag, users, show);
    StoredMeans(map[], tag, users, show);
    var info := if tag in s.infos then s.infos[tag].(nodeLimit := nodeLimit, users := policies) else Info(nodeLimit, policies, map[], map[]);
    PoliciesMoveNothing(s, tag, info);
    if tag in s.infos {
      var t := WithInfo(s, tag, info);
      AppliedShape(t, tag, users, nodeLimit, true);
      AppliedElsewhere(t, tag, users, nodeLimit, true);
      AppliedDecides(t, tag, users, nodeLimit, true, email);
    }
  }

  /** An update adds policies to the inbound or replaces single ones, and sets a bucket as the last
      policy of its user that has a static limit, or denies, says. */
  lemma UpdateMeans(s: State, tag: string, users: seq<User>, show: int -> string, email: string)
    requires SlotsExist(s) && Separate(s)
    ensures var t := AfterUpdate(s, tag, users, show);
            var before := if tag in s.infos then s.infos[tag] else Info(0, map[], map[], map[]);
            && OnlyIn(s, t, tag) && t.infos[tag] == before.(users := t.infos[tag].users)
            && StoredLast(t.infos[tag].users, before.users, tag, users, show)
            && Decides(BucketOf(s, tag, email), BucketOf(t, tag, email), email, users, before.nodeLimit, false)
  {
    var before := if tag in s.infos then s.infos[tag] else Info(0, map[], map[], map[]);
    var info := before.(users := Stored(before.users, tag, users, show));
    StoredMeans(before.users, tag, users, show);
    PoliciesMoveNothing(s, tag, info);
    if tag in s.infos {
      var t := WithInfo(s, tag, info);
      AppliedShape(t, tag, users, before.nodeLimit, false);
      AppliedElsewhere(t, tag, users, before.nodeLimit, false);
      AppliedDecides(t, tag, users, before.nodeLimit, false, email);
    }
  }

  /** Collecting keeps exactly the buckets of the users seen since the last time, and of those with
      an automatic limit, and forgets who was seen. */
  lemma CollectMeans(s: State, tag: string, email: string)
    requires tag in s.infos
    ensures var t := AfterGetOnlineUsers(s, tag);
            && t.buckets == s.buckets && t.autoLimited == s.autoLimited
            && t.infos == s.infos[tag := s.infos[tag].(hub := t.infos[tag].hub, online := map[])]
            && (email in t.infos[tag].hub <==>
                  email in s.infos[tag].hub && (email in s.infos[tag].online || email in s.autoLimited))
            && (email in t.infos[tag].hub ==> t.infos[tag].hub[email] == s.infos[tag].hub[email])
  {
  }

  datatype Event =
    | GetUserBucket(tag: string, email: string, ip: string)
    | SetUserSpeed(tag: string, email: string, speed: nat)
    | GetOnlineUsers(tag: string)
    | Sync(tag: string, nodeLimit: nat, users: seq<User>)
    | Update(tag: string, users: seq<User>)
    | Delete(tag: string)

  ghost function Next(s: State, e: Event, show: int -> string): State
  {
    match e
    case GetUserBucket(tag, email, ip) => AfterGetUserBucket(s, tag, email, ip)
    case SetUserSpeed(tag, email, speed) => AfterSetUserSpeed(s, tag, email, speed)
    case GetOnlineUsers(tag) => AfterGetOnlineUsers(s, tag)
    case Sync(tag, nodeLimit, users) => AfterSync(s, tag, nodeLimit, users, show)
    case Update(tag, users) => AfterUpdate(s, tag, users, show)
    case Delete(tag) => AfterDelete(s, tag)
  }

  // ----- the limiter, method by method -----

  class Limiter {
    var infos: map<string, Info>
    var buckets: seq<Bucket>
    var autoLimited: set<string>
    const show: int -> string

    constructor (show: int -> string)
      ensures this.show == show && View() == State(map[], [], {})
    {
      this.show := show;
      infos, buckets, autoLimited := map[], [], {};
    }

    ghost function View(): State
      reads this
    {
      State(infos, buckets, autoLimited)
    }

    /** Scans the keys for the prefix of the email. */
    method LookupUserInfo(tag: string, email: string) returns (u: Option<User>)
      requires Valid(View(), show) && '|' !in email
      ensures u == if tag in infos then Policy(infos[tag], email) else None
    {
      if tag !in infos {
        return None;
      }
      var rest := infos[tag].users.Keys;
      while rest != {}
        invariant rest <= infos[tag].users.Keys
        invariant forall k :: k in infos[tag].users.Keys - rest ==> infos[tag].users[k].email != email
      {
        var k :| k in rest;
        rest := rest - {k};
        PrefixFindsEmail(tag, infos[tag].users[k], email, show);
        if KeyMatches(k, tag, email) {
          PolicyIs(infos[tag], tag, show, k);
          return Some(infos[tag].users[k]);
        }
      }
      assert forall v :: !HasPolicy(infos[tag], email, v);
      u := None;
    }

    method SetBucketOf(tag: string, email: string, b: Bucket)
      requires InHub(View(), tag, email) ==> Slot(View(), tag, email) < |buckets|
      modifies this`buckets
      ensures View() == SetBucket(old(View()), tag, email, b)
    {
      if tag in infos && email in infos[tag].hub {
        assert InHub(View(), tag, email);
        buckets := buckets[infos[tag].hub[email] := b];
      }
    }

    method GetUserBucketOf(tag: string, email: string, ip: string) returns (r: Access)
      requires Valid(View(), show) && '|' !in email
      modifies this
      ensures View() == AfterGetUserBucket(old(View()), tag, email, ip)
      ensures r.Reject? <==> IsDenied(old(View()), tag, email)
      ensures r.Reject? <==>
                && tag in old(infos)
                && exists k :: k in old(infos)[tag].users && old(infos)[tag].users[k].email == email && old(infos)[tag].users[k].denied
      ensures r.NoLimiter? <==> tag !in old(infos)
      ensures r.Limited? ==> InHub(View(), tag, email) && r.bucket == Slot(View(), tag, email)
    {
      DeniedMeans(View(), tag, email, show);
      if tag !in infos {
        return NoLimiter;
      }
      var user := LookupUserInfo(tag, email);
      if user.Some? && user.value.denied {
        return Reject;
      }
      var info := infos[tag];
      var limit := DetermineRate(info.nodeLimit, if user.Some? then user.value.speedLimit else 0);
      info := Seen(info, email, ip);
      if email in info.hub {
        infos := infos[tag := info];
        return Limited(info.hub[email]);
      }
      var id := |buckets|;
      buckets := buckets + [BucketFor(limit)];
      info := info.(hub := info.hub[email := id]);
      infos := infos[tag := info];
      r := Limited(id);
    }

    method SetUserSpeedOf(tag: string, email: string, speed: nat)
      requires Valid(View(), show) && '|' !in email
      modifies this
      ensures View() == AfterSetUserSpeed(old(View()), tag, email, speed)
    {
      if tag !in infos {
        return;
      }
      var user := LookupUserInfo(tag, email);
      if user.Some? && user.value.denied {
        SetBucketOf(tag, email, CLOSED);
        return;
      }
      assert InHub(View(), tag, email) ==> Slot(View(), tag, email) < |buckets|;
      if speed > 0 {
        autoLimited := autoLimited + {email};
        assert InHub(View(), tag, email) == InHub(old(View()), tag, email);
        if email in infos[tag].hub {
          SetBucketOf(tag, email, BucketFor(speed));
        } else {
          var id := |buckets|;
          buckets := buckets + [BucketFor(speed)];
          infos := infos[tag := infos[tag].(hub := infos[tag].hub[email := id])];
        }
      } else {
        autoLimited := autoLimited - {email};
        assert InHub(View(), tag, email) == InHub(old(View()), tag, email);
        var limit := DetermineRate(infos[tag].nodeLimit, if user.Some? then user.value.speedLimit else 0);
        SetBucketOf(tag, email, BucketFor(limit));
      }
    }

    /** Turns a denied user away, and the others when their group has all its connections. */
    method AcquireConn(tag: string, email: string, counters: ConnCounts.Counters) returns (ok: bool, group: string)
      requires Valid(View(), show) && '|' !in email
      modifies counters
      ensures IsDenied(View(), tag, email) ==> !ok && group == "" && counters.counts == old(counters.counts)
      ensures tag !in infos || Policy(infos[tag], email).None? ==> ok && group == "" && counters.counts == old(counters.counts)
      ensures tag in infos && Policy(infos[tag], email).Some? && !Policy(infos[tag], email).value.denied ==>
                var u := Policy(infos[tag], email).value;
                var g := if u.connGroup == "" then email else u.connGroup;
                && ok == !(u.deviceLimit > 0 && old(counters.Count(g)) >= u.deviceLimit)
                && group == (if ok then g else "")
                && counters.Count(g) == old(counters.Count(g)) + (if ok then 1 else 0)
    {
      var user := LookupUserInfo(tag, email);
      if user.None? {
        return true, "";
      }
      if user.value.denied {
        return false, "";
      }
      group := if user.value.connGroup == "" then email else user.value.connGroup;
      ok := counters.AcquireConn(group, user.value.deviceLimit);
      if !ok {
        group := "";
      }
    }

    /** Reports who was seen, starts a new round, and collects the buckets nobody used in this one. */
    method CollectOnlineUsers(tag: string) returns (seen: map<string, set<string>>)
      modifies this
      ensures View() == AfterGetOnlineUsers(old(View()), tag)
      ensures seen == if tag in old(infos) then old(infos)[tag].online else map[]
    {
      if tag !in infos {
        return map[];
      }
      var info := infos[tag];
      var hub, rest := info.hub, info.hub.Keys;
      while rest != {}
        invariant rest <= info.hub.Keys
        invariant hub == map e | e in info.hub && (e in rest || e in info.online || e in autoLimited) :: info.hub[e]
      {
        var email :| email in rest;
        rest := rest - {email};
        if email !in info.online && email !in autoLimited {
          hub := hub - {email};
        }
      }
      assert hub == map e | e in info.hub && (e in info.online || e in autoLimited) :: info.hub[e];
      seen := info.online;
      infos := infos[tag := info.(hub := hub, online := map[])];
    }

    method StorePolicies(stored: map<string, User>, tag: string, users: seq<User>) returns (r: map<string, User>)
      ensures r == Stored(stored, tag, users, show)
    {
      r := stored;
      assert users[..0] == [];
      for n := 0 to |users|
        invariant r == Stored(stored, tag, users[..n], show)
      {
        assert users[..n + 1][..n] == users[..n];
        r := r[Key(tag, users[n], show) := users[n]];
      }
      assert users[..|users|] == users;
    }

    method ApplyPolicies(tag: string, users: seq<User>, nodeLimit: nat, isSync: bool)
      requires SlotsExist(View())
      modifies this`buckets
      ensures View() == Applied(old(View()), tag, users, nodeLimit, isSync)
    {
      ghost var s := View();
      assert users[..0] == [];
      for n := 0 to |users|
        invariant View() == Applied(s, tag, users[..n], nodeLimit, isSync)
      {
        assert users[..n + 1][..n] == users[..n];
        AppliedShape(s, tag, users[..n], nodeLimit, isSync);
        var u := users[n];
        assert InHub(View(), tag, u.email) ==> InHub(s, tag, u.email) && Slot(View(), tag, u.email) == Slot(s, tag, u.email);
        if u.denied {
          SetBucketOf(tag, u.email, CLOSED);
          continue;
        }
        var limit := DetermineRate(nodeLimit, u.speedLimit);
        if limit > 0 || isSync {
          SetBucketOf(tag, u.email, BucketFor(limit));
        }
      }
      assert users[..|users|] == users;
    }

    method SyncInbound(tag: string, nodeLimit: nat, users: seq<User>)
      requires SlotsExist(View())
      modifies this
      ensures View() == AfterSync(old(View()), tag, nodeLimit, users, show)
    {
      var policies := StorePolicies(map[], tag, users);
      if tag !in infos {
        infos := infos[tag := Info(nodeLimit, policies, map[], map[])];
        return;
      }
      SlotsKept(View(), tag, infos[tag].(nodeLimit := nodeLimit, users := policies));
      infos := infos[tag := infos[tag].(nodeLimit := nodeLimit, users := policies)];
      ApplyPolicies(tag, users, nodeLimit, true);
    }

    method UpdateInbound(tag: string, users: seq<User>)
      requires SlotsExist(View())
      modifies this
      ensures View() == AfterUpdate(old(View()), tag, users, show)
    {
      if tag !in infos {
        var policies := StorePolicies(map[], tag, users);
        infos := infos[tag := Info(0, policies, map[], map[])];
        return;
      }
      var policies := StorePolicies(infos[tag].users, tag, users);
      var nodeLimit := infos[tag].nodeLimit;
      SlotsKept(View(), tag, infos[tag].(users := policies));
      infos := infos[tag := infos[tag].(users := policies)];
      ApplyPolicies(tag, users, nodeLimit, false);
    }
  }

  lemma SlotsKept(s: State, tag: string, info: Info)
    requires SlotsExist(s) && tag in s.infos && info.hub == s.infos[tag].hub
    ensures SlotsExist(WithInfo(s, tag, info))
  {
    var t := WithInfo(s, tag, info);
    forall u, email | InHub(t, u, email) ensures Slot(t, u, email) < |t.buckets| {
      assert InHub(s, u, email);
    }
  }

  lemma {:induction false} AppliedShape(s: State, tag: string, users: seq<User>, nodeLimit: nat, isSync: bool)
    ensures var t := Applied(s, tag, users, nodeLimit, isSync);
            t == s.(buckets := t.buckets) && |t.buckets| == |s.buckets|
  {
    if users != [] {
      AppliedShape(s, tag, users[..|users| - 1], nodeLimit, isSync);
    }
  }
}

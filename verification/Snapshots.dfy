/** The limiter's durable snapshots, and what a limiter makes of them. */
module Snapshots {
  import opened Json
  import UserBuckets

  type User = UserBuckets.User

  datatype Peer = Peer(address: string, email: string)

  datatype Snapshot = Snapshot(tag: string, nodeLimit: nat, shared: bool, users: seq<User>, peers: seq<Peer>)

  /** Trimming, the address of "a host or any prefix", and the address of a prefix that is one host. */
  datatype Parser = Parser(trim: string -> string, addr: string -> Option<string>, host: string -> Option<string>, show: int -> string)

  /** A host prefix has an address, in a form that parses to itself, and trimming is for nothing once
      it has been done. */
  ghost predicate Lawful(p: Parser)
  {
    forall v, a: string :: p.host(v) == Some(a) ==>
      a != "" && p.addr(a) == Some(a) && (p.trim(v) == v ==> p.addr(v) == Some(a))
  }

  // ----- a snapshot -----

  predicate ValidUser(u: User, p: Parser)
  {
    u.email != "" && p.trim(u.email) == u.email
  }

  predicate ValidPeer(w: Peer, users: seq<User>, p: Parser)
  {
    && w.email != "" && p.trim(w.email) == w.email
    && (exists u :: u in users && u.email == w.email)
    && p.host(w.address).Some? && p.host(w.address).value != "" && p.trim(w.address) == w.address
  }

  predicate AllValid(peers: seq<Peer>, users: seq<User>, p: Parser)
  {
    forall w :: w in peers ==> ValidPeer(w, users, p)
  }

  /** Every peer is proper, and no address has two owners. */
  predicate ValidPeers(peers: seq<Peer>, users: seq<User>, p: Parser)
  {
    && AllValid(peers, users, p)
    && (forall v, w :: v in peers && w in peers && p.host(v.address) == p.host(w.address) ==> v.email == w.email)
  }

  predicate ValidSnapshot(s: Snapshot, p: Parser)
  {
    && s.tag != "" && p.trim(s.tag) == s.tag
    && (forall u :: u in s.users ==> ValidUser(u, p))
    && ValidPeers(s.peers, s.users, p)
  }

  /** The tag and every email are trimmed and not empty. Every peer is one of the users, under a
      trimmed address of one host, and peers that share an address share the email. */
  lemma ValidMeans(s: Snapshot, p: Parser)
    ensures ValidSnapshot(s, p) <==>
              && s.tag != "" && p.trim(s.tag) == s.tag
              && (forall u :: u in s.users ==> u.email != "" && p.trim(u.email) == u.email)
              && (forall w :: w in s.peers ==>
                    && w.email != "" && p.trim(w.email) == w.email && p.trim(w.address) == w.address
                    && p.host(w.address) != None && p.host(w.address) != Some("")
                    && exists u :: u in s.users && u.email == w.email)
              && (forall v, w :: v in s.peers && w in s.peers && v.email != w.email ==> p.host(v.address) != p.host(w.address))
  {
    if ValidSnapshot(s, p) {
      assert forall w :: w in s.peers ==> ValidPeer(w, s.users, p);
    }
  }

  ghost predicate EmailsOf(emails: set<string>, users: seq<User>)
  {
    forall e :: e in emails <==> exists u :: u in users && u.email == e
  }

  method CheckUsers(users: seq<User>, p: Parser) returns (ok: bool, emails: set<string>)
    ensures ok <==> forall u :: u in users ==> ValidUser(u, p)
    ensures ok ==> EmailsOf(emails, users)
  {
    emails := {};
    for n := 0 to |users|
      invariant forall i :: 0 <= i < n ==> ValidUser(users[i], p)
      invariant forall e :: e in emails <==> exists i :: 0 <= i < n && users[i].email == e
    {
      var email := p.trim(users[n].email);
      if email == "" || email != users[n].email {
        assert users[n] in users && !ValidUser(users[n], p);
        return false, emails;
      }
      emails := emails + {email};
    }
    ok := true;
  }

  /** The owner of each address among the first peers is remembered. */
  ghost predicate Remembers(addresses: map<string, string>, peers: seq<Peer>, n: nat, p: Parser)
    requires n <= |peers|
  {
    && (forall i :: 0 <= i < n ==>
          p.host(peers[i].address).Some? && p.host(peers[i].address).value in addresses
          && addresses[p.host(peers[i].address).value] == peers[i].email)
    && (forall a :: a in addresses ==> exists i :: 0 <= i < n && p.host(peers[i].address) == Some(a))
  }

  method CheckPeer(peer: Peer, users: seq<User>, emails: set<string>, p: Parser) returns (address: Option<string>)
    requires EmailsOf(emails, users)
    ensures address == if ValidPeer(peer, users, p) then p.host(peer.address) else None
  {
    var email := p.trim(peer.email);
    if email == "" || email != peer.email || email !in emails {
      return None;
    }
    address := p.host(peer.address);
    if address == Some("") || peer.address != p.trim(peer.address) {
      address := None;
    }
  }

  lemma OneInvalid(peers: seq<Peer>, users: seq<User>, n: nat, p: Parser)
    requires n < |peers| && !ValidPeer(peers[n], users, p)
    ensures !ValidPeers(peers, users, p)
  {
    assert peers[n] in peers;
  }

  lemma RememberedOnce(addresses: map<string, string>, peers: seq<Peer>, users: seq<User>, p: Parser)
    requires AllValid(peers, users, p) && Remembers(addresses, peers, |peers|, p)
    ensures ValidPeers(peers, users, p)
  {
    forall v, w | v in peers && w in peers && p.host(v.address) == p.host(w.address) ensures v.email == w.email {
      var i :| 0 <= i < |peers| && peers[i] == v;
      var j :| 0 <= j < |peers| && peers[j] == w;
      assert addresses[p.host(peers[i].address).value] == v.email && addresses[p.host(peers[j].address).value] == w.email;
    }
  }

  lemma RememberMore(addresses: map<string, string>, peers: seq<Peer>, n: nat, p: Parser)
    requires n < |peers| && Remembers(addresses, peers, n, p) && p.host(peers[n].address).Some?
    requires p.host(peers[n].address).value in addresses ==> addresses[p.host(peers[n].address).value] == peers[n].email
    ensures Remembers(addresses[p.host(peers[n].address).value := peers[n].email], peers, n + 1, p)
  {
  }

  lemma TwoOwners(addresses: map<string, string>, peers: seq<Peer>, users: seq<User>, n: nat, p: Parser)
    requires n < |peers| && Remembers(addresses, peers, n, p) && p.host(peers[n].address).Some?
    requires p.host(peers[n].address).value in addresses && addresses[p.host(peers[n].address).value] != peers[n].email
    ensures !ValidPeers(peers, users, p)
  {
    var i :| 0 <= i < n && p.host(peers[i].address) == p.host(peers[n].address);
    assert peers[i] in peers && peers[n] in peers && peers[i].email != peers[n].email;
  }

  method CheckPeers(peers: seq<Peer>, users: seq<User>, emails: set<string>, p: Parser) returns (ok: bool)
    requires EmailsOf(emails, users)
    ensures ok <==> ValidPeers(peers, users, p)
  {
    var addresses: map<string, string> := map[];
    for n := 0 to |peers|
      invariant AllValid(peers[..n], users, p) && Remembers(addresses, peers, n, p)
    {
      var email := peers[n].email;
      var address := CheckPeer(peers[n], users, emails, p);
      if address.None? {
        OneInvalid(peers, users, n, p);
        return false;
      }
      if address.value in addresses && addresses[address.value] != email {
        TwoOwners(addresses, peers, users, n, p);
        return false;
      }
      RememberMore(addresses, peers, n, p);
      assert peers[..n + 1] == peers[..n] + [peers[n]];
      addresses := addresses[address.value := email];
    }
    assert peers[..|peers|] == peers;
    RememberedOnce(addresses, peers, users, p);
    ok := true;
  }

  method Validate(s: Snapshot, p: Parser) returns (ok: bool)
    ensures ok <==> ValidSnapshot(s, p)
  {
    if s.tag == "" || s.tag != p.trim(s.tag) {
      return false;
    }
    var emails;
    ok, emails := CheckUsers(s.users, p);
    if ok {
      ok := CheckPeers(s.peers, s.users, emails, p);
    }
  }

  // ----- the list of snapshots -----

  ghost predicate DistinctTags(list: seq<Snapshot>)
  {
    forall i, j :: 0 <= i < j < |list| ==> list[i].tag != list[j].tag
  }

  ghost predicate Readable(list: seq<Snapshot>, p: Parser)
  {
    DistinctTags(list) && forall i :: 0 <= i < |list| ==> ValidSnapshot(list[i], p)
  }

  method CheckSnapshots(list: seq<Snapshot>, p: Parser) returns (ok: bool)
    ensures ok <==> Readable(list, p)
    ensures ok <==> (forall s :: s in list ==> ValidSnapshot(s, p))
                    && forall i, j :: 0 <= i < |list| && 0 <= j < |list| && list[i].tag == list[j].tag ==> i == j
  {
    var seen: set<string> := {};
    for n := 0 to |list|
      invariant forall i :: 0 <= i < n ==> ValidSnapshot(list[i], p) && list[i].tag in seen
      invariant forall t :: t in seen ==> exists i :: 0 <= i < n && list[i].tag == t
      invariant forall i, j :: 0 <= i < j < n ==> list[i].tag != list[j].tag
    {
      var valid := Validate(list[n], p);
      if !valid {
        return false;
      }
      if list[n].tag in seen {
        return false;
      }
      seen := seen + {list[n].tag};
    }
    ok := true;
  }

  /** The list holds the snapshot in the place of the one of its tag, and the others as before. */
  ghost predicate ReplacedBy(list: seq<Snapshot>, s: Snapshot, after: seq<Snapshot>)
  {
    forall x :: x in after <==> x == s || (x in list && x.tag != s.tag)
  }

  method ReplaceSnapshot(list: seq<Snapshot>, s: Snapshot) returns (after: seq<Snapshot>)
    requires DistinctTags(list)
    ensures DistinctTags(after) && ReplacedBy(list, s, after)
  {
    after := list;
    var n := 0;
    while n < |list| && list[n].tag != s.tag
      invariant n <= |list| && forall i :: 0 <= i < n ==> list[i].tag != s.tag
    {
      n := n + 1;
    }
    if n < |list| {
      after := list[n := s];
      forall x ensures x in after <==> x == s || (x in list && x.tag != s.tag) {
        if x in list && x.tag != s.tag {
          var i :| 0 <= i < |list| && list[i] == x;
          assert after[i] == x;
        }
        assert after[n] == s;
      }
    } else {
      after := list + [s];
    }
  }

  ghost predicate Without(list: seq<Snapshot>, tag: string, after: seq<Snapshot>)
  {
    forall x :: x in after <==> x in list && x.tag != tag
  }

  method RemoveSnapshot(list: seq<Snapshot>, tag: string) returns (after: seq<Snapshot>, found: bool, wireGuard: bool)
    requires DistinctTags(list)
    ensures DistinctTags(after) && Without(list, tag, after)
    ensures found <==> exists x :: x in list && x.tag == tag
    ensures wireGuard <==> exists x :: x in list && x.tag == tag && x.peers != []
  {
    after, found, wireGuard := [], false, false;
    for n := 0 to |list|
      invariant DistinctTags(after)
      invariant forall x :: x in after <==> (exists i :: 0 <= i < n && list[i] == x && x.tag != tag)
      invariant found <==> exists i :: 0 <= i < n && list[i].tag == tag
      invariant wireGuard <==> exists i :: 0 <= i < n && list[i].tag == tag && list[i].peers != []
    {
      if list[n].tag == tag {
        found := true;
        wireGuard := wireGuard || list[n].peers != [];
        continue;
      }
      forall i | 0 <= i < |after| ensures after[i].tag != list[n].tag {
        assert after[i] in after;
      }
      after := after + [list[n]];
    }
    assert forall x :: x in list <==> exists i :: 0 <= i < |list| && list[i] == x;
  }

  // ----- the limiter -----

  datatype Live = Live(nodeLimit: nat, shared: bool, users: map<string, User>, wireGuard: map<string, string>, required: bool)

  /** The owner of each tunnel address. */
  function WireGuardUsers(peers: seq<Peer>, addr: string -> Option<string>): map<string, string>
  {
    if peers == [] then map[]
    else
      var before, w := WireGuardUsers(peers[..|peers| - 1], addr), peers[|peers| - 1];
      if w.email != "" && addr(w.address).Some? && addr(w.address).value != "" then before[addr(w.address).value := w.email]
      else before
  }

  /** A peer that makes its owner the owner of the address. */
  predicate Owns(w: Peer, address: string, addr: string -> Option<string>)
  {
    w.email != "" && address != "" && addr(w.address) == Some(address)
  }

  /** Every address that a peer makes owned belongs to the last such peer. */
  ghost predicate LastOwners(owners: map<string, string>, peers: seq<Peer>, addr: string -> Option<string>)
  {
    && (forall a :: a in owners <==> exists w :: w in peers && Owns(w, a, addr))
    && (forall a, i :: 0 <= i < |peers| && Owns(peers[i], a, addr) && (forall j :: i < j < |peers| ==> !Owns(peers[j], a, addr)) ==>
          a in owners && owners[a] == peers[i].email)
  }

  lemma {:induction false} LastPeerOwns(peers: seq<Peer>, addr: string -> Option<string>)
    ensures LastOwners(WireGuardUsers(peers, addr), peers, addr)
  {
    if peers != [] {
      var before, last := peers[..|peers| - 1], peers[|peers| - 1];
      LastPeerOwns(before, addr);
      assert peers == before + [last];
      forall a, i | 0 <= i < |peers| && Owns(peers[i], a, addr) && (forall j :: i < j < |peers| ==> !Owns(peers[j], a, addr))
        ensures a in WireGuardUsers(peers, addr) && WireGuardUsers(peers, addr)[a] == peers[i].email
      {
        if i < |before| {
          assert !Owns(peers[|peers| - 1], a, addr);
          assert forall j :: i < j < |before| ==> before[j] == peers[j];
        }
      }
    }
  }

  method BuildWireGuardUsers(peers: seq<Peer>, addr: string -> Option<string>) returns (r: map<string, string>)
    ensures r == WireGuardUsers(peers, addr) && LastOwners(r, peers, addr)
  {
    LastPeerOwns(peers, addr);
    r := map[];
    assert peers[..0] == [];
    for n := 0 to |peers|
      invariant r == WireGuardUsers(peers[..n], addr)
    {
      assert peers[..n + 1][..n] == peers[..n];
      if peers[n].email == "" {
        continue;
      }
      var ip := addr(peers[n].address);
      if ip.Some? && ip.value != "" {
        r := r[ip.value := peers[n].email];
      }
    }
    assert peers[..|peers|] == peers;
  }

  function LiveOf(s: Snapshot, before: bool, p: Parser): Live
  {
    var wireGuard := WireGuardUsers(s.peers, p.addr);
    Live(s.nodeLimit, s.shared, UserBuckets.Stored(map[], s.tag, s.users, p.show), wireGuard, before || wireGuard != map[])
  }

  /** A limiter says of a tag what the snapshot says: its limits, each user's policy under
      "tag|email|uid" and under no other key, and the owners of the addresses. It requires an identity
      where there is an owner, and may do so elsewhere. */
  ghost predicate Says(live: Live, s: Snapshot, p: Parser)
  {
    && live.nodeLimit == s.nodeLimit && live.shared == s.shared
    && UserBuckets.StoredLast(live.users, map[], s.tag, s.users, p.show)
    && LastOwners(live.wireGuard, s.peers, p.addr)
    && (live.wireGuard != map[] ==> live.required)
  }

  /** What a delivered snapshot becomes in the limiter. */
  lemma LiveMeans(s: Snapshot, before: bool, p: Parser)
    ensures Says(LiveOf(s, before, p), s, p)
    ensures LiveOf(s, before, p).required <==> before || LiveOf(s, before, p).wireGuard != map[]
  {
    UserBuckets.StoredMeans(map[], s.tag, s.users, p.show);
    LastPeerOwns(s.peers, p.addr);
  }

  lemma LastOwnersUnique(a: map<string, string>, b: map<string, string>, peers: seq<Peer>, addr: string -> Option<string>)
    requires LastOwners(a, peers, addr) && LastOwners(b, peers, addr)
    ensures a == b
  {
    forall x | x in a ensures a[x] == b[x] {
      var i := LastOwner(peers, x, addr);
    }
  }

  lemma {:induction false} LastOwner(peers: seq<Peer>, a: string, addr: string -> Option<string>) returns (i: nat)
    requires exists w :: w in peers && Owns(w, a, addr)
    ensures i < |peers| && Owns(peers[i], a, addr) && forall j :: i < j < |peers| ==> !Owns(peers[j], a, addr)
  {
    i := |peers| - 1;
    if !Owns(peers[i], a, addr) {
      assert peers == peers[..i] + [peers[i]];
      i := LastOwner(peers[..i], a, addr);
    }
  }

  /** A limiter that says this holds nothing else. */
  lemma SaysIsLive(live: Live, s: Snapshot, p: Parser)
    ensures Says(live, s, p) <==> live == LiveOf(s, live.required, p)
  {
    LiveMeans(s, live.required, p);
    if Says(live, s, p) {
      UserBuckets.StoredLastUnique(live.users, LiveOf(s, live.required, p).users, s.tag, s.users, p.show);
      LastOwnersUnique(live.wireGuard, LiveOf(s, live.required, p).wireGuard, s.peers, p.addr);
    }
  }

  function Synced(live: map<string, Live>, s: Snapshot, p: Parser): map<string, Live>
  {
    live[s.tag := LiveOf(s, s.tag in live && live[s.tag].required, p)]
  }

  /** What a fresh limiter holds once every snapshot has been restored. */
  function Restored(list: seq<Snapshot>, p: Parser): map<string, Live>
  {
    if list == [] then map[] else Synced(Restored(list[..|list| - 1], p), list[|list| - 1], p)
  }

  /** The limiter says what the snapshots say, and remembers which tags need an identity. */
  ghost predicate Reflects(live: map<string, Live>, list: seq<Snapshot>, p: Parser)
  {
    && (forall tag :: tag in live ==> exists s :: s in list && s.tag == tag)
    && (forall s :: s in list ==> s.tag in live && live[s.tag] == LiveOf(s, live[s.tag].required, p))
  }

  lemma SyncReflects(live: map<string, Live>, list: seq<Snapshot>, s: Snapshot, after: seq<Snapshot>, p: Parser)
    requires Reflects(live, list, p) && ReplacedBy(list, s, after)
    ensures Reflects(Synced(live, s, p), after, p)
  {
    assert s in after;
    forall tag | tag in Synced(live, s, p) ensures exists x :: x in after && x.tag == tag {
      if tag != s.tag {
        var x :| x in list && x.tag == tag;
        assert x in after;
      }
    }
  }

  lemma LastReplaces(list: seq<Snapshot>)
    requires DistinctTags(list) && list != []
    ensures DistinctTags(list[..|list| - 1]) && ReplacedBy(list[..|list| - 1], list[|list| - 1], list)
  {
    var init, last := list[..|list| - 1], list[|list| - 1];
    forall x ensures x in list <==> x == last || (x in init && x.tag != last.tag) {
      if x in init {
        var i :| 0 <= i < |init| && init[i] == x;
        assert list[i] == x && list[i].tag != last.tag;
      }
      if x in list {
        var i :| 0 <= i < |list| && list[i] == x;
        assert i == |list| - 1 || init[i] == x;
      }
    }
  }

  lemma {:induction false} RestoredReflects(list: seq<Snapshot>, p: Parser)
    requires DistinctTags(list)
    ensures Reflects(Restored(list, p), list, p)
  {
    if list != [] {
      var init, last := list[..|list| - 1], list[|list| - 1];
      RestoredReflects(init, p);
      LastReplaces(list);
      SyncReflects(Restored(init, p), init, last, list, p);
    }
  }
}

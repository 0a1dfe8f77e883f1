/** Starting an embedded Xray whose WireGuard inbounds must know whose traffic they carry. */
module WireGuardStart {
  import opened Json
  import opened LimiterStores
  import opened Selections
  import opened Snapshots

  /** An inbound of the configuration file: the allowed addresses of each of its peers. */
  datatype Inbound = Inbound(tag: string, wireGuard: bool, peers: seq<seq<string>>)

  // ----- which inbounds may start -----

  /** The addresses that the snapshots of a tag give an owner. */
  predicate MappedFor(list: seq<Snapshot>, tag: string, address: string, p: Parser)
  {
    exists s :: s in list && p.trim(s.tag) == tag && Gives(s.peers, address, p)
  }

  predicate Gives(peers: seq<Peer>, address: string, p: Parser)
  {
    exists w :: w in peers && p.host(w.address) == Some(address)
  }

  predicate AddressKnown(allowed: string, mapped: set<string>, p: Parser)
  {
    p.host(allowed).Some? && p.host(allowed).value in mapped
  }

  predicate PeerKnown(peer: seq<string>, mapped: set<string>, p: Parser)
  {
    peer != [] && forall i :: 0 <= i < |peer| ==> AddressKnown(peer[i], mapped, p)
  }

  predicate Complete(inbound: Inbound, mapped: set<string>, p: Parser)
  {
    mapped != {} && forall i :: 0 <= i < |inbound.peers| ==> PeerKnown(inbound.peers[i], mapped, p)
  }

  predicate NeedsMapping(inbound: Inbound)
  {
    inbound.wireGuard && inbound.peers != []
  }

  function MappedIn(mappedByTag: map<string, set<string>>, tag: string): set<string>
  {
    if tag in mappedByTag then mappedByTag[tag] else {}
  }

  method AddressesByTag(list: seq<Snapshot>, p: Parser) returns (mapped: map<string, set<string>>)
    ensures forall tag, a: string :: a in MappedIn(mapped, tag) <==> MappedFor(list, tag, a, p)
  {
    mapped := map[];
    assert forall tag, a: string :: !MappedFor([], tag, a, p);
    assert list[..0] == [];
    for n := 0 to |list|
      invariant forall tag, a: string :: a in MappedIn(mapped, tag) <==> MappedFor(list[..n], tag, a, p)
    {
      var tag := p.trim(list[n].tag);
      var addresses := AddressesOf(list[n].peers, p);
      ghost var before := mapped;
      mapped := mapped[tag := MappedIn(mapped, tag) + addresses];
      MappedNext(list, n, before, mapped, addresses, p);
    }
    assert list[..|list|] == list;
  }

  method AddressesOf(peers: seq<Peer>, p: Parser) returns (addresses: set<string>)
    ensures forall a: string :: a in addresses <==> Gives(peers, a, p)
  {
    addresses := {};
    for n := 0 to |peers|
      invariant forall a: string :: a in addresses <==> exists i :: 0 <= i < n && p.host(peers[i].address) == Some(a)
    {
      var address := p.host(peers[n].address);
      if address.Some? {
        addresses := addresses + {address.value};
      }
    }
    forall a: string ensures (exists i :: 0 <= i < |peers| && p.host(peers[i].address) == Some(a))
                        <==> Gives(peers, a, p)
    {
      if w :| w in peers && p.host(w.address) == Some(a) {
        var i :| 0 <= i < |peers| && peers[i] == w;
      }
    }
  }

  lemma MappedNext(list: seq<Snapshot>, n: nat, before: map<string, set<string>>, after: map<string, set<string>>,
                   addresses: set<string>, p: Parser)
    requires n < |list|
    requires forall tag, a: string :: a in MappedIn(before, tag) <==> MappedFor(list[..n], tag, a, p)
    requires forall a: string :: a in addresses <==> Gives(list[n].peers, a, p)
    requires after == before[p.trim(list[n].tag) := MappedIn(before, p.trim(list[n].tag)) + addresses]
    ensures forall tag, a: string :: a in MappedIn(after, tag) <==> MappedFor(list[..n + 1], tag, a, p)
  {
    forall tag, a: string ensures a in MappedIn(after, tag) <==> MappedFor(list[..n + 1], tag, a, p) {
      MappedOneMore(list, n, tag, a, p);
    }
  }

  lemma MappedOneMore(list: seq<Snapshot>, n: nat, tag: string, a: string, p: Parser)
    requires n < |list|
    ensures MappedFor(list[..n + 1], tag, a, p)
        <==> MappedFor(list[..n], tag, a, p) || (p.trim(list[n].tag) == tag && Gives(list[n].peers, a, p))
  {
    assert list[..n + 1] == list[..n] + [list[n]];
    if p.trim(list[n].tag) == tag && Gives(list[n].peers, a, p) {
      assert list[n] in list[..n + 1];
    }
    if MappedFor(list[..n], tag, a, p) {
      var s :| s in list[..n] && p.trim(s.tag) == tag && Gives(s.peers, a, p);
      assert s in list[..n + 1];
    }
  }

  method MissingMappings(config: seq<Inbound>, list: seq<Snapshot>, p: Parser) returns (missing: set<string>)
    ensures forall tag: string :: tag in missing <==> exists i :: 0 <= i < |config| && Incomplete(config[i], tag, list, p)
  {
    var mappedByTag := AddressesByTag(list, p);
    missing := {};
    for n := 0 to |config|
      invariant forall tag: string :: tag in missing <==> exists i :: 0 <= i < n && Incomplete(config[i], tag, list, p)
    {
      var inbound := config[n];
      if !inbound.wireGuard || inbound.peers == [] {
        continue;
      }
      var tag := p.trim(inbound.tag);
      var mapped := MappedIn(mappedByTag, tag);
      var complete := CheckInbound(inbound, mapped, p);
      SameMapped(list, tag, mapped, inbound, p);
      if !complete {
        missing := missing + {tag};
      }
    }
  }

  /** A WireGuard inbound under this tag with a peer whose owner the snapshots do not tell. */
  ghost predicate Incomplete(inbound: Inbound, tag: string, list: seq<Snapshot>, p: Parser)
  {
    && NeedsMapping(inbound) && p.trim(inbound.tag) == tag
    && !AllMapped(inbound, list, tag, p)
  }

  ghost predicate AllMapped(inbound: Inbound, list: seq<Snapshot>, tag: string, p: Parser)
  {
    && (exists a: string :: MappedFor(list, tag, a, p))
    && forall i :: 0 <= i < |inbound.peers| ==>
         inbound.peers[i] != [] && forall j :: 0 <= j < |inbound.peers[i]| ==> AddressMapped(inbound.peers[i][j], list, tag, p)
  }

  ghost predicate AddressMapped(allowed: string, list: seq<Snapshot>, tag: string, p: Parser)
  {
    p.host(allowed).Some? && MappedFor(list, tag, p.host(allowed).value, p)
  }

  /** An address has an owner when a peer of a snapshot of the tag is that host. */
  lemma AddressMappedMeans(allowed: string, list: seq<Snapshot>, tag: string, p: Parser)
    ensures AddressMapped(allowed, list, tag, p) <==>
              p.host(allowed) != None
              && exists s, w :: s in list && p.trim(s.tag) == tag && w in s.peers && p.host(w.address) == p.host(allowed)
  {
    if s, w :| s in list && p.trim(s.tag) == tag && w in s.peers && p.host(w.address) == p.host(allowed) && p.host(allowed).Some? {
      assert Gives(s.peers, p.host(allowed).value, p);
    }
  }

  /** An inbound is held back when it is WireGuard and a peer of it has no address at all or one
      without an owner. */
  lemma IncompleteMeans(inbound: Inbound, tag: string, list: seq<Snapshot>, p: Parser)
    ensures Incomplete(inbound, tag, list, p) <==>
              && inbound.wireGuard && p.trim(inbound.tag) == tag
              && exists i :: 0 <= i < |inbound.peers| &&
                   (inbound.peers[i] == [] || exists j :: 0 <= j < |inbound.peers[i]| && !AddressMapped(inbound.peers[i][j], list, tag, p))
  {
    if inbound.peers != [] && inbound.peers[0] != [] && AddressMapped(inbound.peers[0][0], list, tag, p) {
      assert MappedFor(list, tag, p.host(inbound.peers[0][0]).value, p);
    }
  }

  lemma SameMapped(list: seq<Snapshot>, tag: string, mapped: set<string>, inbound: Inbound, p: Parser)
    requires forall a: string :: a in mapped <==> MappedFor(list, tag, a, p)
    ensures Complete(inbound, mapped, p) <==> AllMapped(inbound, list, tag, p)
  {
    assert forall allowed: string :: AddressKnown(allowed, mapped, p) <==> AddressMapped(allowed, list, tag, p);
    if mapped != {} {
      var a :| a in mapped;
    }
    if Complete(inbound, mapped, p) {
      forall i | 0 <= i < |inbound.peers|
        ensures inbound.peers[i] != [] && forall j :: 0 <= j < |inbound.peers[i]| ==> AddressMapped(inbound.peers[i][j], list, tag, p)
      {
        assert PeerKnown(inbound.peers[i], mapped, p);
      }
    }
  }

  method CheckInbound(inbound: Inbound, mapped: set<string>, p: Parser) returns (complete: bool)
    ensures complete <==> Complete(inbound, mapped, p)
  {
    complete := mapped != {};
    for n := 0 to |inbound.peers|
      invariant complete <==> mapped != {} && forall i :: 0 <= i < n ==> PeerKnown(inbound.peers[i], mapped, p)
    {
      var peer := inbound.peers[n];
      if peer == [] {
        return false;
      }
      for m := 0 to |peer|
        invariant complete <==> mapped != {} && (forall i :: 0 <= i < n ==> PeerKnown(inbound.peers[i], mapped, p))
                                && forall j :: 0 <= j < m ==> AddressKnown(peer[j], mapped, p)
      {
        var address := p.host(peer[m]);
        if address.None? || address.value !in mapped {
          assert !AddressKnown(peer[m], mapped, p);
          assert !PeerKnown(inbound.peers[n], mapped, p);
          return false;
        }
      }
    }
  }

  function Unsuppressed(config: seq<Inbound>, suppressed: set<string>, p: Parser): seq<Inbound>
  {
    if config == [] then []
    else
      var last := config[|config| - 1];
      Unsuppressed(config[..|config| - 1], suppressed, p) + if p.trim(last.tag) in suppressed then [] else [last]
  }

  method SuppressInbounds(config: seq<Inbound>, suppressed: set<string>, p: Parser) returns (kept: seq<Inbound>)
    ensures kept == Unsuppressed(config, suppressed, p)
  {
    kept := [];
    assert config[..0] == [];
    for n := 0 to |config|
      invariant kept == Unsuppressed(config[..n], suppressed, p)
    {
      assert config[..n + 1][..n] == config[..n];
      if p.trim(config[n].tag) in suppressed {
        continue;
      }
      kept := kept + [config[n]];
    }
    assert config[..|config|] == config;
  }

  /** The inbounds that are left are the others, in their order. */
  lemma {:induction false} UnsuppressedAre(config: seq<Inbound>, suppressed: set<string>, p: Parser)
    ensures Unsuppressed(config, suppressed, p) == Filter(config, (inbound: Inbound) => p.trim(inbound.tag) !in suppressed)
  {
    if config != [] {
      UnsuppressedAre(config[..|config| - 1], suppressed, p);
    }
  }

  lemma {:induction false} KeptInbounds(config: seq<Inbound>, suppressed: set<string>, p: Parser, inbound: Inbound)
    ensures inbound in Unsuppressed(config, suppressed, p) <==> inbound in config && p.trim(inbound.tag) !in suppressed
  {
    if config != [] {
      KeptInbounds(config[..|config| - 1], suppressed, p, inbound);
      assert config == config[..|config| - 1] + [config[|config| - 1]];
    }
  }

  // ----- whose traffic it is -----

  function ResolvePeer(live: map<string, Live>, tag: string, source: string, p: Parser): Option<string>
  {
    if tag !in live || p.addr(source).None? || p.addr(source).value !in live[tag].wireGuard then None
    else Some(live[tag].wireGuard[p.addr(source).value])
  }

  predicate RequiresIdentity(live: map<string, Live>, tag: string)
  {
    tag in live && live[tag].required
  }

  datatype Identity = Anonymous | Known(email: string) | Refused

  /** The user of a connection: where an identity is required it is the owner of the source address,
      and otherwise the user that came with it, if any. */
  function ResolveUser(live: map<string, Live>, tag: string, source: string, user: string, p: Parser): Identity
  {
    var mapped := ResolvePeer(live, tag, source, p);
    if RequiresIdentity(live, tag) then
      if mapped.None? || mapped.value == "" || (user != "" && user != mapped.value) then Refused
      else Known(mapped.value)
    else if user == "" then Anonymous else Known(user)
  }

  /** The owner that the snapshots give an address of a tag. */
  ghost predicate Owner(list: seq<Snapshot>, tag: string, address: string, email: string, p: Parser)
  {
    exists s, w :: s in list && s.tag == tag && w in s.peers && p.host(w.address) == Some(address) && w.email == email
  }

  /** The map of a valid snapshot's peers gives every address its one owner. */
  lemma {:induction false} PeersMapped(s: Snapshot, peers: seq<Peer>, p: Parser, w: Peer)
    requires Lawful(p) && ValidSnapshot(s, p) && w in peers && forall x :: x in peers ==> x in s.peers
    ensures var m := WireGuardUsers(peers, p.addr); p.host(w.address).value in m && m[p.host(w.address).value] == w.email
  {
    var init, last := peers[..|peers| - 1], peers[|peers| - 1];
    assert ValidPeer(w, s.users, p) && ValidPeer(last, s.users, p);
    assert p.addr(last.address) == p.host(last.address);
    if w in init {
      PeersMapped(s, init, p, w);
    }
  }

  lemma OwnersUnique(list: seq<Snapshot>, tag: string, address: string, e: string, f: string, p: Parser)
    requires Readable(list, p) && Owner(list, tag, address, e, p) && Owner(list, tag, address, f, p)
    ensures e == f
  {
    var s, w :| s in list && s.tag == tag && w in s.peers && p.host(w.address) == Some(address) && w.email == e;
    var t, x :| t in list && t.tag == tag && x in t.peers && p.host(x.address) == Some(address) && x.email == f;
    var i :| 0 <= i < |list| && list[i] == s;
    var j :| 0 <= j < |list| && list[j] == t;
    assert i == j;
    assert ValidSnapshot(list[i], p);
  }

  /** After a start, every WireGuard inbound with peers that is left running knows the owner of each
      allowed address, and turns away what it does not know, provided its tag is trimmed. */
  lemma StartedResolves(config: seq<Inbound>, list: seq<Snapshot>, missing: set<string>, suppressed: set<string>, p: Parser,
                        inbound: Inbound, i: nat, j: nat)
    requires Lawful(p) && Readable(list, p) && missing <= suppressed
    requires forall tag: string :: tag in missing <==> exists k :: 0 <= k < |config| && Incomplete(config[k], tag, list, p)
    requires inbound in Unsuppressed(config, suppressed, p) && NeedsMapping(inbound) && p.trim(inbound.tag) == inbound.tag
    requires i < |inbound.peers|
    ensures RequiresIdentity(Restored(list, p), inbound.tag)
    ensures inbound.peers[i] != []
    ensures j < |inbound.peers[i]| ==>
              var allowed := p.host(inbound.peers[i][j]);
              allowed.Some? && var email := ResolvePeer(Restored(list, p), inbound.tag, allowed.value, p);
              email.Some? && email.value != "" && Owner(list, inbound.tag, allowed.value, email.value, p)
  {
    KeptInbounds(config, suppressed, p, inbound);
    var k :| 0 <= k < |config| && config[k] == inbound;
    assert AllMapped(inbound, list, inbound.tag, p);
    var a: string :| MappedFor(list, inbound.tag, a, p);
    MappedResolves(list, inbound.tag, a, p);
    if j < |inbound.peers[i]| {
      assert AddressMapped(inbound.peers[i][j], list, inbound.tag, p);
      MappedResolves(list, inbound.tag, p.host(inbound.peers[i][j]).value, p);
    }
  }

  lemma ValidWithin(list: seq<Snapshot>, p: Parser, s: Snapshot)
    requires Readable(list, p) && s in list
    ensures ValidSnapshot(s, p) && p.trim(s.tag) == s.tag
  {
    var i :| 0 <= i < |list| && list[i] == s;
    assert ValidSnapshot(list[i], p);
  }

  lemma MappedResolves(list: seq<Snapshot>, tag: string, address: string, p: Parser)
    requires Lawful(p) && Readable(list, p) && MappedFor(list, tag, address, p)
    ensures RequiresIdentity(Restored(list, p), tag)
    ensures var email := ResolvePeer(Restored(list, p), tag, address, p);
            email.Some? && email.value != "" && Owner(list, tag, address, email.value, p)
  {
    var s :| s in list && p.trim(s.tag) == tag && Gives(s.peers, address, p);
    var w :| w in s.peers && p.host(w.address) == Some(address);
    ValidWithin(list, p, s);
    RestoredReflects(list, p);
    OwnerResolves(Restored(list, p), s, w, address, p);
  }

  lemma OwnerResolves(live: map<string, Live>, s: Snapshot, w: Peer, address: string, p: Parser)
    requires Lawful(p) && ValidSnapshot(s, p) && w in s.peers && p.host(w.address) == Some(address)
    requires s.tag in live && live[s.tag] == LiveOf(s, live[s.tag].required, p)
    ensures RequiresIdentity(live, s.tag) && ResolvePeer(live, s.tag, address, p) == Some(w.email) && w.email != ""
  {
    assert ValidPeer(w, s.users, p);
    PeersMapped(s, s.peers, p, w);
    assert p.addr(address) == Some(address);
  }

  /** Under a tag that is not trimmed nothing is required: its traffic counts as anonymous. */
  lemma UntrimmedIsAnonymous(list: seq<Snapshot>, p: Parser, tag: string, source: string)
    requires Readable(list, p) && p.trim(tag) != tag
    ensures !RequiresIdentity(Restored(list, p), tag) && ResolveUser(Restored(list, p), tag, source, "", p).Anonymous?
  {
    RestoredReflects(list, p);
    forall s | s in list ensures s.tag != tag {
      ValidWithin(list, p, s);
    }
  }

  /** Where an identity is required no connection is anonymous, and each that is let through belongs
      to the owner of its source address. */
  method ResolveInboundUser(live: map<string, Live>, tag: string, source: string, user: string, p: Parser) returns (r: Identity)
    ensures r == ResolveUser(live, tag, source, user, p)
    ensures RequiresIdentity(live, tag) ==> !r.Anonymous?
    ensures RequiresIdentity(live, tag) && r.Known? ==>
              Some(r.email) == ResolvePeer(live, tag, source, p) && r.email != "" && (user == "" || user == r.email)
    ensures !RequiresIdentity(live, tag) ==> r == (if user == "" then Anonymous else Known(user))
    ensures tag in live && live[tag].required ==>
              var owners := live[tag].wireGuard;
              var owner := if p.addr(source).Some? && p.addr(source).value in owners then owners[p.addr(source).value] else "";
              r == if owner == "" || (user != "" && user != owner) then Refused else Known(owner)
  {
    var mapped := ResolvePeer(live, tag, source, p);
    if tag in live && live[tag].required {
      if mapped.None? || mapped.value == "" {
        return Refused;
      }
      if user != "" {
        if user != mapped.value {
          return Refused;
        }
        return Known(user);
      }
      return Known(mapped.value);
    }
    r := if user == "" then Anonymous else Known(user);
  }

  // ----- from one start to the next -----

  /** The address of a peer names its owner. */
  ghost predicate Names(peers: seq<Peer>, address: string, email: string, p: Parser)
  {
    exists w :: w in peers && w.email == email && p.addr(w.address) == Some(address)
  }

  lemma {:induction false} MapNames(peers: seq<Peer>, p: Parser, address: string)
    requires address in WireGuardUsers(peers, p.addr)
    ensures Names(peers, address, WireGuardUsers(peers, p.addr)[address], p)
  {
    var init, last := peers[..|peers| - 1], peers[|peers| - 1];
    if last.email != "" && p.addr(last.address) == Some(address) && address != "" {
      assert last in peers;
    } else {
      MapNames(init, p, address);
      var w :| w in init && w.email == WireGuardUsers(init, p.addr)[address] && p.addr(w.address) == Some(address);
      assert w in peers;
    }
  }

  /** Once an identity is required of a tag, then until it is deleted or Xray stops or starts again
      nobody on it is anonymous, whatever has been delivered; and whoever is let through while the
      limiter follows the file is the owner that the file names for the source address. */
  lemma NobodyAnonymous(st: State, ops: seq<Op>, p: Parser, tag: string, source: string, user: string)
    requires Requires(st, tag) && Unreleased(st, ops, tag, p)
    ensures var v := Run(st, ops, p);
            var r := ResolveUser(v.live, tag, source, user, p);
            && !r.Anonymous?
            && (r.Known? && v.embedded && v.file.Holding? && Steady(st, ops, tag, p) ==>
                  && tag in v.file.contents && p.addr(source).Some?
                  && Names(v.file.contents[tag].peers, p.addr(source).value, r.email, p))
  {
    RequirementSticks(st, ops, tag, p);
    var v := Run(st, ops, p);
    var r := ResolveUser(v.live, tag, source, user, p);
    if r.Known? && v.embedded && v.file.Holding? && Steady(st, ops, tag, p) {
      LimiterFollowsFile(st, ops, tag, p);
      MapNames(v.file.contents[tag].peers, p, p.addr(source).value);
    }
  }

  /** Every WireGuard inbound with peers that a start leaves running begins so. */
  lemma StartRequires(st: State, config: seq<Inbound>, list: seq<Snapshot>, missing: set<string>, suppressed: set<string>,
                      p: Parser, inbound: Inbound)
    requires Lawful(p) && Readable(list, p) && missing <= suppressed
    requires forall tag: string :: tag in missing <==> exists k :: 0 <= k < |config| && Incomplete(config[k], tag, list, p)
    requires inbound in Unsuppressed(config, suppressed, p) && NeedsMapping(inbound) && p.trim(inbound.tag) == inbound.tag
    requires Starts(st, false) && Contents(st.file) == ContentsOf(list)
    ensures Requires(StartedFrom(st, false, p), inbound.tag)
  {
    StartedResolves(config, list, missing, suppressed, p, inbound, 0, 0);
    RestoredIsFresh(list, p);
  }

  // ----- admitting a peer -----

  /** Accepts a peer whose addresses all have an owner in the snapshots, and from then on demands
      that the snapshots be there when Xray starts. */
  method RequirePeerMappings(file: Option<seq<Snapshot>>, marker: bool, tag: string, allowed: seq<string>, p: Parser, writeFails: bool)
    returns (ok: bool, required: bool)
    ensures ok <==>
              && p.trim(tag) != "" && allowed != [] && file.Some? && Readable(file.value, p)
              && (forall i :: 0 <= i < |allowed| ==> AddressMapped(allowed[i], file.value, p.trim(tag), p))
              && (marker || !writeFails)
    ensures required == (marker || ok)
  {
    required := marker;
    if p.trim(tag) == "" || |allowed| == 0 || file.None? {
      return false, required;
    }
    ok := CheckSnapshots(file.value, p);
    if !ok {
      return;
    }
    var mappedByTag := AddressesByTag(file.value, p);
    var mapped := MappedIn(mappedByTag, p.trim(tag));
    for n := 0 to |allowed|
      invariant forall i :: 0 <= i < n ==> AddressMapped(allowed[i], file.value, p.trim(tag), p)
    {
      var address := p.host(allowed[n]);
      if address.None? || address.value !in mapped {
        assert !AddressMapped(allowed[n], file.value, p.trim(tag), p);
        return false, required;
      }
    }
    if marker {
      return true, true;
    }
    ok := !writeFails;
    required := ok;
  }

  /** An inbound all of whose peers have been accepted is not held back at the next start. */
  lemma AcceptedPeersStart(inbound: Inbound, list: seq<Snapshot>, p: Parser)
    requires NeedsMapping(inbound)
    ensures (forall i :: 0 <= i < |inbound.peers| ==>
               inbound.peers[i] != []
               && forall j :: 0 <= j < |inbound.peers[i]| ==> AddressMapped(inbound.peers[i][j], list, p.trim(inbound.tag), p))
            <==> !Incomplete(inbound, p.trim(inbound.tag), list, p)
  {
    if inbound.peers[0] != [] && AddressMapped(inbound.peers[0][0], list, p.trim(inbound.tag), p) {
      assert MappedFor(list, p.trim(inbound.tag), p.host(inbound.peers[0][0]).value, p);
    }
  }
}

/** Edits of the inbounds array of an Xray configuration: replacing an inbound by tag,
    folding duplicate tags together, and keeping the users of the copies that go. */
module InboundConfig {
  import opened Json
  import opened Selections

  type Fields = map<string, Json>

  // ----- identity of a client -----

  /** fmt.Sprint gives these two texts for an empty string and for an absent field. */
  predicate NonEmptyText(t: string)
  {
    t != "" && t != "<nil>"
  }

  predicate HasNonEmpty(m: Fields, key: string, sprint: Json -> string)
  {
    NonEmptyText(sprint(Get(m, key)))
  }

  predicate BothNonEmptyEq(a: Fields, b: Fields, key: string, sprint: Json -> string)
  {
    HasNonEmpty(a, key, sprint) && HasNonEmpty(b, key, sprint) && sprint(Get(a, key)) == sprint(Get(b, key))
  }

  function PrimaryKey(protocol: string): string
  {
    var p := ToLower(protocol);
    if p == "vless" || p == "vmess" then "id"
    else if p == "trojan" || p == "shadowsocks" || p == "anytls" then "password"
    else if p == "mieru" then "username"
    else if p == "hysteria" then "auth"
    else if p == "socks" || p == "http" then "user"
    else ""
  }

  /** Two clients are one user: by the protocol's own key when both carry it, else by email. */
  predicate MatchClientCredential(a: Fields, b: Fields, protocol: string, sprint: Json -> string)
  {
    if ToLower(protocol) == "wireguard" then BothNonEmptyEq(a, b, "publicKey", sprint)
    else
      var key := PrimaryKey(protocol);
      if key != "" && HasNonEmpty(a, key, sprint) && HasNonEmpty(b, key, sprint)
      then BothNonEmptyEq(a, b, key, sprint)
      else BothNonEmptyEq(a, b, "email", sprint)
  }

  /** A client that carries its protocol's key or an email. */
  predicate Identified(c: Fields, protocol: string, sprint: Json -> string)
  {
    if ToLower(protocol) == "wireguard" then HasNonEmpty(c, "publicKey", sprint)
    else
      || (PrimaryKey(protocol) != "" && HasNonEmpty(c, PrimaryKey(protocol), sprint))
      || HasNonEmpty(c, "email", sprint)
  }

  /** Identified clients match themselves, and the others match nothing. */
  lemma IdentifiedMatches(a: Fields, c: Fields, protocol: string, sprint: Json -> string)
    ensures MatchClientCredential(c, c, protocol, sprint) <==> Identified(c, protocol, sprint)
    ensures MatchClientCredential(a, c, protocol, sprint) ==> Identified(c, protocol, sprint)
  {
  }

  /** By which field the clients of a protocol are told apart. */
  const CREDENTIALS: set<(string, string)> :=
    {("vless", "id"), ("vmess", "id"), ("trojan", "password"), ("shadowsocks", "password"), ("anytls", "password"),
     ("mieru", "username"), ("hysteria", "auth"), ("socks", "user"), ("http", "user")}

  lemma PrimaryKeyTable(protocol: string, key: string)
    ensures (ToLower(protocol), key) in CREDENTIALS ==> PrimaryKey(protocol) == key && key != "" && ToLower(protocol) != "wireguard"
    ensures ToLower(protocol) !in {"vless", "vmess", "trojan", "shadowsocks", "anytls", "mieru", "hysteria", "socks", "http"} ==>
              PrimaryKey(protocol) == ""
  {
  }

  /** Clients that both carry the field of their protocol match by it, and others by their emails;
      those of WireGuard by their public keys only, and those of other protocols by email only. */
  lemma CredentialTable(a: Fields, b: Fields, protocol: string, key: string, sprint: Json -> string)
    ensures var text := (m: Fields, k: string) => sprint(Get(m, k));
            var named := (m: Fields, k: string) => text(m, k) != "" && text(m, k) != "<nil>";
            var byEmail := named(a, "email") && named(b, "email") && text(a, "email") == text(b, "email");
            var p, matches := ToLower(protocol), MatchClientCredential(a, b, protocol, sprint);
            && ((ToLower(protocol), key) in CREDENTIALS ==>
                  (matches <==> if named(a, key) && named(b, key) then text(a, key) == text(b, key) else byEmail))
            && (p == "wireguard" ==>
                  (matches <==> named(a, "publicKey") && named(b, "publicKey") && text(a, "publicKey") == text(b, "publicKey")))
            && (p !in {"vless", "vmess", "trojan", "shadowsocks", "anytls", "mieru", "hysteria", "socks", "http", "wireguard"} ==>
                  (matches <==> byEmail))
  {
    PrimaryKeyTable(protocol, key);
  }

  // ----- merging clients -----

  /** Where a protocol keeps its clients; the empty text for the protocols that are left alone. */
  function ClientsKey(protocol: string): string
  {
    var p := ToLower(protocol);
    if p == "vless" || p == "vmess" || p == "trojan" || p == "shadowsocks" || p == "hysteria" then "clients"
    else if p == "anytls" || p == "mieru" then "users"
    else if p == "socks" || p == "http" then "accounts"
    else ""
  }

  /** The field of the settings that holds the clients of a protocol. */
  const CLIENT_LISTS: set<(string, string)> :=
    {("vless", "clients"), ("vmess", "clients"), ("trojan", "clients"), ("shadowsocks", "clients"), ("hysteria", "clients"),
     ("anytls", "users"), ("mieru", "users"), ("socks", "accounts"), ("http", "accounts")}

  lemma ClientsTable(protocol: string, key: string)
    ensures (ToLower(protocol), key) in CLIENT_LISTS ==> ClientsKey(protocol) == key
    ensures ToLower(protocol) !in {"vless", "vmess", "trojan", "shadowsocks", "hysteria", "anytls", "mieru", "socks", "http"} ==>
              ClientsKey(protocol) == ""
  {
  }

  function ProtocolOf(dst: Fields, src: Fields): string
  {
    var p := AsString(Get(src, "protocol"));
    if p != "" then p else AsString(Get(dst, "protocol"))
  }

  function ClientsOf(inbound: Fields, key: string): seq<Json>
  {
    var settings := Get(inbound, "settings");
    if settings.Obj? then AsItems(Get(settings.fields, key)) else []
  }

  ghost predicate Known(clients: seq<Json>, c: Fields, protocol: string, sprint: Json -> string)
  {
    exists k :: 0 <= k < |clients| && clients[k].Obj? && MatchClientCredential(clients[k].fields, c, protocol, sprint)
  }

  /** `src` appended to `dst`, without the clients that are known by then. */
  ghost function WithClients(dst: seq<Json>, src: seq<Json>, protocol: string, sprint: Json -> string): seq<Json>
  {
    if src == [] then dst
    else
      var before := WithClients(dst, src[..|src| - 1], protocol, sprint);
      var c := src[|src| - 1];
      if c.Obj? && Known(before, c.fields, protocol, sprint) then before else before + [c]
  }

  /** Whether merging `src` into `dst` looks at clients at all, and under which key. */
  function MergeKey(dst: Fields, src: Fields): string
  {
    if Get(dst, "settings").Obj? && Get(src, "settings").Obj? then ClientsKey(ProtocolOf(dst, src)) else ""
  }

  ghost function Merged(dst: Fields, src: Fields, sprint: Json -> string): Fields
  {
    var key := MergeKey(dst, src);
    if key == "" || ClientsOf(src, key) == [] then dst
    else
      var clients := WithClients(ClientsOf(dst, key), ClientsOf(src, key), ProtocolOf(dst, src), sprint);
      dst["settings" := Obj(Get(dst, "settings").fields[key := Arr(clients)])]
  }

  method IsKnown(clients: seq<Json>, c: Fields, protocol: string, sprint: Json -> string) returns (dup: bool)
    ensures dup <==> Known(clients, c, protocol, sprint)
  {
    dup := false;
    for j := 0 to |clients|
      invariant !dup
      invariant forall k :: 0 <= k < j && clients[k].Obj? ==> !MatchClientCredential(clients[k].fields, c, protocol, sprint)
    {
      if clients[j].Obj? && MatchClientCredential(clients[j].fields, c, protocol, sprint) {
        dup := true;
        break;
      }
    }
  }

  method MergeInboundClients(dst: Fields, src: Fields, sprint: Json -> string) returns (r: Fields)
    ensures r == Merged(dst, src, sprint)
  {
    var dstSettings, srcSettings := Get(dst, "settings"), Get(src, "settings");
    if !dstSettings.Obj? || !srcSettings.Obj? {
      return dst;
    }
    var proto := AsString(Get(dst, "protocol"));
    var p := AsString(Get(src, "protocol"));
    if p != "" {
      proto := p;
    }
    var arrKey := ClientsKey(proto);
    if arrKey == "" {
      return dst;
    }
    var dstArr, srcArr := AsItems(Get(dstSettings.fields, arrKey)), AsItems(Get(srcSettings.fields, arrKey));
    if |srcArr| == 0 {
      return dst;
    }
    ghost var old_ := dstArr;
    assert srcArr[..0] == [];
    for i := 0 to |srcArr|
      invariant dstArr == WithClients(old_, srcArr[..i], proto, sprint)
    {
      assert srcArr[..i + 1][..i] == srcArr[..i];
      var sc := srcArr[i];
      if !sc.Obj? {
        dstArr := dstArr + [sc];
        continue;
      }
      var dup := IsKnown(dstArr, sc.fields, proto, sprint);
      if !dup {
        dstArr := dstArr + [sc];
      }
    }
    assert srcArr[..|srcArr|] == srcArr;
    r := dst["settings" := Obj(dstSettings.fields[arrKey := Arr(dstArr)])];
  }

  /** Merging two inbounds changes the list of clients at most: the protocol is that of the copy to be
      merged, if it names one, and its clients go behind those that are there. */
  lemma MergedMeans(dst: Fields, src: Fields, sprint: Json -> string)
    ensures var text := (m: Fields) => if "protocol" in m && m["protocol"].Str? then m["protocol"].text else "";
            var protocol := if text(src) != "" then text(src) else text(dst);
            var list := (m: Fields, key: string) =>
              if "settings" in m && m["settings"].Obj? && key in m["settings"].fields && m["settings"].fields[key].Arr?
              then m["settings"].fields[key].items else [];
            var key := ClientsKey(protocol);
            Merged(dst, src, sprint) ==
              if key == "" || list(src, key) == [] || !("settings" in dst && dst["settings"].Obj?) then dst
              else dst["settings" := Obj(dst["settings"].fields[key := Arr(WithClients(list(dst, key), list(src, key), protocol, sprint))])]
  {
  }

  lemma {:induction false} WithClientsExtends(dst: seq<Json>, src: seq<Json>, protocol: string, sprint: Json -> string)
    ensures dst <= WithClients(dst, src, protocol, sprint)
  {
    if src != [] {
      WithClientsExtends(dst, src[..|src| - 1], protocol, sprint);
    }
  }

  /** Behind the clients that were there come, in their order, those of the others that match neither
      one of them nor an earlier one that was appended. */
  lemma {:induction false} WithClientsPlaces(dst: seq<Json>, src: seq<Json>, protocol: string, sprint: Json -> string)
    returns (at: seq<nat>)
    ensures var r := WithClients(dst, src, protocol, sprint);
            && dst <= r && Places(r[|dst|..], src, at)
            && forall k :: 0 <= k < |src| ==> (k !in at <==> Superfluous(dst, src, at, k, protocol, sprint))
  {
    at := [];
    if src != [] {
      var init, n := src[..|src| - 1], |src| - 1;
      var before := WithClients(dst, init, protocol, sprint);
      at := WithClientsPlaces(dst, init, protocol, sprint);
      KnownAmong(dst, init, before, at, src[n], protocol, sprint);
      var was := at;
      if !(src[n].Obj? && Known(before, src[n].fields, protocol, sprint)) {
        at := at + [n];
      }
      forall k | 0 <= k < |src| ensures k !in at <==> Superfluous(dst, src, at, k, protocol, sprint) {
        if k < n {
          SameBefore(dst, src, was, at, k, protocol, sprint);
        }
      }
    }
  }

  /** A client to append that matches one that is there, or an earlier one that was appended. */
  ghost predicate Superfluous(dst: seq<Json>, src: seq<Json>, at: seq<nat>, k: nat, protocol: string, sprint: Json -> string)
    requires k < |src|
  {
    src[k].Obj? && exists c: Json :: c.Obj? && MatchClientCredential(c.fields, src[k].fields, protocol, sprint)
                                     && (c in dst || exists j :: 0 <= j < k && j in at && src[j] == c)
  }

  lemma SameBefore(dst: seq<Json>, src: seq<Json>, was: seq<nat>, at: seq<nat>, k: nat, protocol: string, sprint: Json -> string)
    requires k < |src| - 1 && (at == was || at == was + [|src| - 1])
    ensures Superfluous(dst, src[..|src| - 1], was, k, protocol, sprint) <==> Superfluous(dst, src, at, k, protocol, sprint)
  {
  }

  lemma KnownAmong(dst: seq<Json>, src: seq<Json>, r: seq<Json>, at: seq<nat>, x: Json, protocol: string, sprint: Json -> string)
    requires dst <= r && Places(r[|dst|..], src, at)
    ensures x.Obj? ==>
              (Known(r, x.fields, protocol, sprint) <==>
                 exists c: Json :: c.Obj? && MatchClientCredential(c.fields, x.fields, protocol, sprint)
                                   && (c in dst || exists j :: 0 <= j < |src| && j in at && src[j] == c))
  {
    forall c: Json ensures c in r <==> c in dst || exists j :: 0 <= j < |src| && j in at && src[j] == c {
      if c in r {
        var i :| 0 <= i < |r| && r[i] == c;
        if i >= |dst| {
          assert r[|dst|..][i - |dst|] == c && at[i - |dst|] in at;
        }
      }
      if j :| 0 <= j < |src| && j in at && src[j] == c {
        var i :| 0 <= i < |at| && at[i] == j;
        assert r[|dst|..][i] == c && r[|dst| + i] == c;
      }
    }
  }

  lemma KnownGrows(small: seq<Json>, big: seq<Json>, c: Fields, protocol: string, sprint: Json -> string)
    requires small <= big && Known(small, c, protocol, sprint)
    ensures Known(big, c, protocol, sprint)
  {
  }

  /** Nothing is lost: every client of `src` is kept as it is or was known already. */
  lemma {:induction false} WithClientsKeeps(dst: seq<Json>, src: seq<Json>, protocol: string, sprint: Json -> string, c: Json)
    requires c in src
    ensures var r := WithClients(dst, src, protocol, sprint);
            c in r || (c.Obj? && Known(r, c.fields, protocol, sprint))
  {
    var before, last := src[..|src| - 1], src[|src| - 1];
    if c in before {
      WithClientsKeeps(dst, before, protocol, sprint, c);
      var r0, r := WithClients(dst, before, protocol, sprint), WithClients(dst, src, protocol, sprint);
      if c.Obj? && Known(r0, c.fields, protocol, sprint) {
        KnownGrows(r0, r, c.fields, protocol, sprint);
      }
    }
  }

  /** Appending changes nothing exactly when every client to append is known at the start. */
  lemma {:induction false} WithClientsIdle(dst: seq<Json>, src: seq<Json>, protocol: string, sprint: Json -> string)
    ensures WithClients(dst, src, protocol, sprint) == dst
        <==> forall k :: 0 <= k < |src| ==> src[k].Obj? && Known(dst, src[k].fields, protocol, sprint)
  {
    if src != [] {
      var before := src[..|src| - 1];
      WithClientsIdle(dst, before, protocol, sprint);
      WithClientsExtends(dst, before, protocol, sprint);
      assert forall k :: 0 <= k < |before| ==> src[k] == before[k];
    }
  }

  /** Merging a duplicate keeps its users exactly when it has none there, or the copy it is
      merged into has a settings object to hold them. */
  lemma MergeKeepsUsers(dst: Fields, src: Fields, sprint: Json -> string)
    requires ClientsKey(ProtocolOf(dst, src)) != ""
    ensures var key := ClientsKey(ProtocolOf(dst, src));
            var kept := ClientsOf(Merged(dst, src, sprint), key);
            (forall c <- ClientsOf(src, key) :: c in kept || (c.Obj? && Known(kept, c.fields, ProtocolOf(dst, src), sprint)))
            <==> ClientsOf(src, key) == [] || Get(dst, "settings").Obj?
  {
    var protocol := ProtocolOf(dst, src);
    var key := ClientsKey(protocol);
    var users := ClientsOf(src, key);
    if users != [] {
      assert users[0] in users;
      if Get(dst, "settings").Obj? {
        forall c | c in users
          ensures var kept := ClientsOf(Merged(dst, src, sprint), key);
                  c in kept || (c.Obj? && Known(kept, c.fields, protocol, sprint))
        {
          WithClientsKeeps(ClientsOf(dst, key), users, protocol, sprint, c);
        }
      } else {
        assert ClientsOf(Merged(dst, src, sprint), key) == [];
      }
    }
  }

  // ----- folding a list of copies into one inbound -----

  ghost function MergedAll(dst: Fields, copies: seq<Fields>, sprint: Json -> string): Fields
  {
    if copies == [] then dst
    else Merged(MergedAll(dst, copies[..|copies| - 1], sprint), copies[|copies| - 1], sprint)
  }

  /** How many clients an inbound holds, under any key. */
  function ClientCount(inbound: Fields): nat
  {
    |ClientsOf(inbound, "clients")| + |ClientsOf(inbound, "users")| + |ClientsOf(inbound, "accounts")|
  }

  lemma MergedShape(dst: Fields, src: Fields, sprint: Json -> string)
    ensures var r := Merged(dst, src, sprint);
            && Get(r, "tag") == Get(dst, "tag") && Get(r, "protocol") == Get(dst, "protocol")
            && (Get(r, "settings").Obj? <==> Get(dst, "settings").Obj?)
            && forall key: string :: ClientsOf(dst, key) <= ClientsOf(r, key)
  {
    var key := MergeKey(dst, src);
    if key != "" && ClientsOf(src, key) != [] {
      WithClientsExtends(ClientsOf(dst, key), ClientsOf(src, key), ProtocolOf(dst, src), sprint);
    }
  }

  lemma SameClients(dst: Fields, key: string, clients: seq<Json>)
    requires Get(dst, "settings").Obj? && clients == ClientsOf(dst, key) && clients != []
    ensures dst["settings" := Obj(Get(dst, "settings").fields[key := Arr(clients)])] == dst
  {
    var settings := dst["settings"];
    assert settings.fields[key] == Arr(clients);
    assert settings.fields[key := Arr(clients)] == settings.fields;
  }

  /** A merge changes nothing exactly when every client it looks at is an object known already. */
  lemma MergedIdle(dst: Fields, src: Fields, sprint: Json -> string)
    ensures Merged(dst, src, sprint) == dst <==>
              var key := MergeKey(dst, src);
              key != "" ==> forall k :: 0 <= k < |ClientsOf(src, key)| ==>
                ClientsOf(src, key)[k].Obj?
                && Known(ClientsOf(dst, key), ClientsOf(src, key)[k].fields, ProtocolOf(dst, src), sprint)
  {
    var key, protocol := MergeKey(dst, src), ProtocolOf(dst, src);
    if key != "" && ClientsOf(src, key) != [] {
      var have, more := ClientsOf(dst, key), ClientsOf(src, key);
      WithClientsIdle(have, more, protocol, sprint);
      var all := WithClients(have, more, protocol, sprint);
      if all == have {
        assert have != [] by {
          assert Known(have, more[0].fields, protocol, sprint);
        }
        SameClients(dst, key, have);
      } else {
        assert ClientsOf(Merged(dst, src, sprint), key) == all;
      }
    }
  }

  /** A merge that changes the inbound adds a client. */
  lemma MergedGrows(dst: Fields, src: Fields, sprint: Json -> string)
    ensures Merged(dst, src, sprint) == dst || ClientCount(Merged(dst, src, sprint)) > ClientCount(dst)
  {
    var key, protocol := MergeKey(dst, src), ProtocolOf(dst, src);
    var r := Merged(dst, src, sprint);
    if r != dst {
      var have, all := ClientsOf(dst, key), WithClients(ClientsOf(dst, key), ClientsOf(src, key), protocol, sprint);
      WithClientsExtends(have, ClientsOf(src, key), protocol, sprint);
      if all == have {
        WithClientsIdle(have, ClientsOf(src, key), protocol, sprint);
        MergedIdle(dst, src, sprint);
      }
      assert ClientsOf(r, key) == all;
      MergedShape(dst, src, sprint);
      CountGrows(dst, r, key);
    }
  }

  lemma CountGrows(a: Fields, b: Fields, key: string)
    requires forall k: string :: ClientsOf(a, k) <= ClientsOf(b, k)
    requires key in {"clients", "users", "accounts"} && |ClientsOf(a, key)| < |ClientsOf(b, key)|
    ensures ClientCount(a) < ClientCount(b)
  {
    assert ClientsOf(a, "clients") <= ClientsOf(b, "clients");
    assert ClientsOf(a, "users") <= ClientsOf(b, "users");
    assert ClientsOf(a, "accounts") <= ClientsOf(b, "accounts");
  }

  lemma {:induction false} MergedAllShape(dst: Fields, copies: seq<Fields>, n: nat, sprint: Json -> string)
    requires n <= |copies|
    ensures var r, part := MergedAll(dst, copies, sprint), MergedAll(dst, copies[..n], sprint);
            && Get(r, "tag") == Get(dst, "tag") && Get(r, "protocol") == Get(dst, "protocol")
            && (Get(r, "settings").Obj? <==> Get(dst, "settings").Obj?)
            && forall key: string :: ClientsOf(part, key) <= ClientsOf(r, key)
    decreases |copies|
  {
    if n == |copies| {
      assert copies[..n] == copies;
      if copies != [] {
        MergedAllShape(dst, copies[..n - 1], n - 1, sprint);
        MergedShape(MergedAll(dst, copies[..n - 1], sprint), copies[n - 1], sprint);
      }
    } else {
      var before := copies[..|copies| - 1];
      assert before[..n] == copies[..n];
      MergedAllShape(dst, before, n, sprint);
      MergedShape(MergedAll(dst, before, sprint), copies[|copies| - 1], sprint);
    }
  }

  /** Every client the folding looks at is an object that carries its protocol's key or an email. */
  ghost predicate CopiesIdentified(dst: Fields, copies: seq<Fields>, sprint: Json -> string)
  {
    forall i :: 0 <= i < |copies| ==> CopyIdentified(dst, copies[i], sprint)
  }

  ghost predicate CopyIdentified(dst: Fields, copy: Fields, sprint: Json -> string)
  {
    var key := MergeKey(dst, copy);
    key != "" ==> forall k :: 0 <= k < |ClientsOf(copy, key)| ==>
      ClientsOf(copy, key)[k].Obj? && Identified(ClientsOf(copy, key)[k].fields, ProtocolOf(dst, copy), sprint)
  }

  lemma SameMergeKey(a: Fields, b: Fields, copy: Fields)
    requires Get(a, "protocol") == Get(b, "protocol") && (Get(a, "settings").Obj? <==> Get(b, "settings").Obj?)
    ensures MergeKey(a, copy) == MergeKey(b, copy) && ProtocolOf(a, copy) == ProtocolOf(b, copy)
  {
  }

  /** Once a copy has been folded in, folding it in again changes nothing if its clients are identified. */
  lemma FoldedCopyIdle(dst: Fields, copies: seq<Fields>, i: nat, sprint: Json -> string)
    requires i < |copies| && CopyIdentified(dst, copies[i], sprint)
    ensures Merged(MergedAll(dst, copies, sprint), copies[i], sprint) == MergedAll(dst, copies, sprint)
  {
    var r, copy := MergedAll(dst, copies, sprint), copies[i];
    var at, after := MergedAll(dst, copies[..i], sprint), MergedAll(dst, copies[..i + 1], sprint);
    MergedAllShape(dst, copies, i + 1, sprint);
    MergedAllShape(dst, copies[..i], i, sprint);
    SameMergeKey(dst, r, copy);
    SameMergeKey(dst, at, copy);
    assert copies[..i + 1][..i] == copies[..i];
    assert after == Merged(at, copy, sprint);
    var key, protocol := MergeKey(dst, copy), ProtocolOf(dst, copy);
    if key != "" {
      forall k | 0 <= k < |ClientsOf(copy, key)|
        ensures Known(ClientsOf(r, key), ClientsOf(copy, key)[k].fields, protocol, sprint)
      {
        var c := ClientsOf(copy, key)[k];
        WithClientsKeeps(ClientsOf(at, key), ClientsOf(copy, key), protocol, sprint, c);
        KnownIfPresent(ClientsOf(after, key), c, protocol, sprint);
        KnownGrows(ClientsOf(after, key), ClientsOf(r, key), c.fields, protocol, sprint);
      }
    }
    MergedIdle(r, copy, sprint);
  }

  lemma KnownIfPresent(clients: seq<Json>, c: Json, protocol: string, sprint: Json -> string)
    requires c.Obj? && Identified(c.fields, protocol, sprint)
    requires c in clients || Known(clients, c.fields, protocol, sprint)
    ensures Known(clients, c.fields, protocol, sprint)
  {
    if c in clients {
      IdentifiedMatches(c.fields, c.fields, protocol, sprint);
      var k :| 0 <= k < |clients| && clients[k] == c;
    }
  }

  /** A copy with an unidentified client changes whatever it is folded into. */
  lemma UnidentifiedCopyChanges(dst: Fields, copy: Fields, sprint: Json -> string)
    requires !CopyIdentified(dst, copy, sprint)
    ensures Merged(dst, copy, sprint) != dst
  {
    var key, protocol := MergeKey(dst, copy), ProtocolOf(dst, copy);
    var k :| 0 <= k < |ClientsOf(copy, key)|
             && !(ClientsOf(copy, key)[k].Obj? && Identified(ClientsOf(copy, key)[k].fields, protocol, sprint));
    var c := ClientsOf(copy, key)[k];
    if c.Obj? && Known(ClientsOf(dst, key), c.fields, protocol, sprint) {
      var j :| 0 <= j < |ClientsOf(dst, key)| && ClientsOf(dst, key)[j].Obj?
               && MatchClientCredential(ClientsOf(dst, key)[j].fields, c.fields, protocol, sprint);
      IdentifiedMatches(ClientsOf(dst, key)[j].fields, c.fields, protocol, sprint);
    }
    MergedIdle(dst, copy, sprint);
  }

  /** Folding copies in changes the inbound only by adding clients. */
  lemma {:induction false} MergedAllGrows(dst: Fields, copies: seq<Fields>, sprint: Json -> string)
    ensures MergedAll(dst, copies, sprint) == dst || ClientCount(MergedAll(dst, copies, sprint)) > ClientCount(dst)
  {
    if copies != [] {
      var before := copies[..|copies| - 1];
      MergedAllGrows(dst, before, sprint);
      MergedGrows(MergedAll(dst, before, sprint), copies[|copies| - 1], sprint);
    }
  }

  lemma {:induction false} MergedAllIdle(dst: Fields, copies: seq<Fields>, sprint: Json -> string)
    ensures MergedAll(dst, copies, sprint) == dst <==> forall i :: 0 <= i < |copies| ==> Merged(dst, copies[i], sprint) == dst
  {
    if copies != [] {
      var before, last := copies[..|copies| - 1], copies[|copies| - 1];
      var part := MergedAll(dst, before, sprint);
      MergedAllIdle(dst, before, sprint);
      if part == dst {
        assert forall i :: 0 <= i < |copies| ==> copies[i] == if i < |before| then before[i] else last;
      } else {
        MergedAllGrows(dst, copies, sprint);
        MergedAllGrows(dst, before, sprint);
        MergedGrows(part, last, sprint);
        var i :| 0 <= i < |before| && Merged(dst, before[i], sprint) != dst;
        assert copies[i] == before[i];
      }
    }
  }

  /** Folding the same copies in a second time changes nothing exactly when their clients are identified. */
  lemma FoldTwice(dst: Fields, copies: seq<Fields>, sprint: Json -> string)
    ensures var r := MergedAll(dst, copies, sprint);
            MergedAll(r, copies, sprint) == r <==> CopiesIdentified(dst, copies, sprint)
  {
    var r := MergedAll(dst, copies, sprint);
    MergedAllIdle(r, copies, sprint);
    MergedAllShape(dst, copies, 0, sprint);
    forall i | 0 <= i < |copies|
      ensures Merged(r, copies[i], sprint) == r <==> CopyIdentified(dst, copies[i], sprint)
    {
      SameMergeKey(dst, r, copies[i]);
      if CopyIdentified(dst, copies[i], sprint) {
        FoldedCopyIdle(dst, copies, i, sprint);
      } else {
        UnidentifiedCopyChanges(r, copies[i], sprint);
      }
    }
  }

  // ----- the inbounds array -----

  function TagOf(j: Json): string
  {
    StringField(j, "tag")
  }

  /** The objects with a tag, in order. */
  function WithTag(items: seq<Json>, tag: string): seq<Fields>
  {
    if items == [] then []
    else
      var last := items[|items| - 1];
      WithTag(items[..|items| - 1], tag) + if last.Obj? && TagOf(last) == tag then [last.fields] else []
  }

  /** The index of the first object with a tag; the length when there is none. */
  function FirstWithTag(items: seq<Json>, tag: string): (i: nat)
    ensures i <= |items|
    ensures i < |items| ==> items[i].Obj? && TagOf(items[i]) == tag
    ensures forall k :: 0 <= k < i ==> !(items[k].Obj? && TagOf(items[k]) == tag)
  {
    if items == [] || (items[0].Obj? && TagOf(items[0]) == tag) then 0
    else 1 + FirstWithTag(items[1..], tag)
  }

  /** One item of the array added to the kept ones: a copy of a kept tag is folded into its
      first copy (inbounds) or dropped (outbounds); everything without a tag is kept. */
  ghost function AddItem(kept: seq<Json>, item: Json, inbounds: bool, sprint: Json -> string): (r: seq<Json>)
    ensures |kept| <= |r| <= |kept| + 1
  {
    var tag := TagOf(item);
    var i := FirstWithTag(kept, tag);
    if tag == "" || i == |kept| then kept + [item]
    else if inbounds then kept[i := Obj(Merged(kept[i].fields, item.fields, sprint))]
    else kept
  }

  ghost function Deduped(items: seq<Json>, inbounds: bool, sprint: Json -> string): (r: seq<Json>)
    ensures |r| <= |items|
  {
    if items == [] then []
    else AddItem(Deduped(items[..|items| - 1], inbounds, sprint), items[|items| - 1], inbounds, sprint)
  }

  lemma {:induction false} FirstWithTagAppend(items: seq<Json>, item: Json, tag: string)
    ensures FirstWithTag(items + [item], tag) ==
            if FirstWithTag(items, tag) < |items| || (item.Obj? && TagOf(item) == tag) then FirstWithTag(items, tag)
            else |items| + 1
  {
    if items == [] {
      assert items + [item] == [item];
    } else {
      assert (items + [item])[1..] == items[1..] + [item];
      FirstWithTagAppend(items[1..], item, tag);
    }
  }

  lemma {:induction false} FirstWithTagUpdate(items: seq<Json>, i: nat, item: Json, tag: string)
    requires i < |items| && items[i].Obj? && item.Obj? && TagOf(item) == TagOf(items[i])
    ensures FirstWithTag(items[i := item], tag) == FirstWithTag(items, tag)
  {
    if i > 0 {
      assert items[i := item][1..] == items[1..][i - 1 := item];
      FirstWithTagUpdate(items[1..], i - 1, item, tag);
    }
  }

  /** `seen` maps each tag of the kept items to its first place. */
  ghost predicate SeenIs(seen: map<string, nat>, kept: seq<Json>)
  {
    && (forall t: string :: t in seen <==> t != "" && FirstWithTag(kept, t) < |kept|)
    && (forall t: string :: t in seen ==> seen[t] == FirstWithTag(kept, t))
  }

  lemma SeenAfter(seen: map<string, nat>, kept: seq<Json>, item: Json, inbounds: bool, sprint: Json -> string)
    requires SeenIs(seen, kept)
    ensures var tag := TagOf(item);
            SeenIs(if tag == "" || tag in seen then seen else seen[tag := |kept|], AddItem(kept, item, inbounds, sprint))
  {
    var tag := TagOf(item);
    var i := FirstWithTag(kept, tag);
    if tag == "" || i == |kept| {
      SeenAfterAppend(seen, kept, item);
    } else if inbounds {
      MergedShape(kept[i].fields, item.fields, sprint);
      SeenAfterUpdate(seen, kept, i, Obj(Merged(kept[i].fields, item.fields, sprint)));
    }
  }

  lemma SeenAfterAppend(seen: map<string, nat>, kept: seq<Json>, item: Json)
    requires SeenIs(seen, kept) && TagOf(item) !in seen
    ensures SeenIs(if TagOf(item) == "" then seen else seen[TagOf(item) := |kept|], kept + [item])
  {
    var tag := TagOf(item);
    forall t: string | t != ""
      ensures t == tag ==> FirstWithTag(kept + [item], t) == |kept|
      ensures t != tag && t !in seen ==> FirstWithTag(kept + [item], t) == |kept| + 1
      ensures t in seen ==> FirstWithTag(kept + [item], t) == FirstWithTag(kept, t)
    {
      FirstWithTagAppend(kept, item, t);
    }
  }

  lemma SeenAfterUpdate(seen: map<string, nat>, kept: seq<Json>, i: nat, x: Json)
    requires SeenIs(seen, kept) && i < |kept| && kept[i].Obj? && x.Obj? && TagOf(x) == TagOf(kept[i])
    ensures SeenIs(seen, kept[i := x])
  {
    forall t: string ensures FirstWithTag(kept[i := x], t) == FirstWithTag(kept, t) {
      FirstWithTagUpdate(kept, i, x, t);
    }
  }

  lemma DedupedNext(items: seq<Json>, n: nat, inbounds: bool, sprint: Json -> string)
    requires n < |items|
    ensures Deduped(items[..n + 1], inbounds, sprint) == AddItem(Deduped(items[..n], inbounds, sprint), items[n], inbounds, sprint)
  {
    assert items[..n + 1][..n] == items[..n];
  }

  method DedupeItem(kept: seq<Json>, seen: map<string, nat>, item: Json, inbounds: bool, sprint: Json -> string)
    returns (after: seq<Json>, known: map<string, nat>, dropped: bool)
    requires SeenIs(seen, kept)
    ensures after == AddItem(kept, item, inbounds, sprint) && SeenIs(known, after)
    ensures dropped <==> |after| == |kept|
  {
    SeenAfter(seen, kept, item, inbounds, sprint);
    var tag := TagOf(item);
    if !item.Obj? || tag == "" {
      return kept + [item], seen, false;
    }
    if tag in seen {
      if inbounds {
        var merged := MergeInboundClients(kept[seen[tag]].fields, item.fields, sprint);
        return kept[seen[tag] := Obj(merged)], seen, true;
      }
      return kept, seen, true;
    }
    return kept + [item], seen[tag := |kept|], false;
  }

  method DedupeTaggedArray(items: seq<Json>, inbounds: bool, sprint: Json -> string) returns (kept: seq<Json>, removed: nat)
    ensures kept == Deduped(items, inbounds, sprint)
    ensures removed == |items| - |kept|
  {
    var seen: map<string, nat> := map[];
    kept, removed := [], 0;
    assert items[..0] == [];
    for n := 0 to |items|
      invariant kept == Deduped(items[..n], inbounds, sprint)
      invariant removed == n - |kept|
      invariant SeenIs(seen, kept)
    {
      DedupedNext(items, n, inbounds, sprint);
      var dropped;
      kept, seen, dropped := DedupeItem(kept, seen, items[n], inbounds, sprint);
      if dropped {
        removed := removed + 1;
      }
    }
    assert items[..|items|] == items;
  }

  // ----- what the array says about one tag -----

  lemma {:induction false} WithTagSplit(a: seq<Json>, b: seq<Json>, tag: string)
    ensures WithTag(a + b, tag) == WithTag(a, tag) + WithTag(b, tag)
  {
    if b == [] {
      assert a + b == a;
    } else {
      assert (a + b)[..|a + b| - 1] == a + b[..|b| - 1];
      WithTagSplit(a, b[..|b| - 1], tag);
    }
  }

  lemma {:induction false} WithTagNone(items: seq<Json>, tag: string)
    requires forall k :: 0 <= k < |items| ==> !(items[k].Obj? && TagOf(items[k]) == tag)
    ensures WithTag(items, tag) == []
  {
    if items != [] {
      WithTagNone(items[..|items| - 1], tag);
    }
  }

  lemma WithTagAround(front: seq<Json>, x: Json, back: seq<Json>, tag: string)
    ensures WithTag(front + [x] + back, tag) ==
            WithTag(front, tag) + (if x.Obj? && TagOf(x) == tag then [x.fields] else []) + WithTag(back, tag)
  {
    WithTagSplit(front + [x], back, tag);
    WithTagSplit(front, [x], tag);
    assert [x][..0] == [];
  }

  /** Replacing the first inbound of a tag by another of that tag replaces the first copy. */
  lemma WithTagUpdate(items: seq<Json>, i: nat, x: Fields, tag: string)
    requires i < |items| && items[i].Obj? && TagOf(Obj(x)) == TagOf(items[i]) && i == FirstWithTag(items, TagOf(items[i]))
    ensures tag == TagOf(items[i]) ==> WithTag(items, tag) != [] && WithTag(items, tag)[0] == items[i].fields
    ensures tag == TagOf(items[i]) ==> WithTag(items[i := Obj(x)], tag) == [x] + WithTag(items, tag)[1..]
    ensures tag != TagOf(items[i]) ==> WithTag(items[i := Obj(x)], tag) == WithTag(items, tag)
  {
    var front, back := items[..i], items[i + 1..];
    assert items == front + [items[i]] + back;
    assert items[i := Obj(x)] == front + [Obj(x)] + back;
    WithTagAround(front, items[i], back, tag);
    WithTagAround(front, Obj(x), back, tag);
    if tag == TagOf(items[i]) {
      WithTagNone(front, tag);
    }
  }

  lemma {:induction false} WithTagAbsent(items: seq<Json>, tag: string)
    ensures WithTag(items, tag) == [] <==> FirstWithTag(items, tag) == |items|
  {
    if items != [] {
      WithTagAbsent(items[..|items| - 1], tag);
      assert items == items[..|items| - 1] + [items[|items| - 1]];
      FirstWithTagAppend(items[..|items| - 1], items[|items| - 1], tag);
    }
  }

  lemma WithTagAppend(items: seq<Json>, item: Json, tag: string)
    ensures WithTag(items + [item], tag) == WithTag(items, tag) + if item.Obj? && TagOf(item) == tag then [item.fields] else []
  {
    assert (items + [item])[..|items|] == items;
  }

  ghost function Folded(copies: seq<Fields>, sprint: Json -> string): seq<Fields>
  {
    if copies == [] then [] else [MergedAll(copies[0], copies[1..], sprint)]
  }

  lemma FoldOneMore(copies: seq<Fields>, x: Fields, sprint: Json -> string)
    ensures Folded(copies + [x], sprint) ==
            if copies == [] then [x] else [Merged(Folded(copies, sprint)[0], x, sprint)]
  {
    var all := copies + [x];
    if copies != [] {
      assert all[1..][..|all| - 2] == copies[1..];
    }
  }

  lemma AddItemWithTag(kept: seq<Json>, item: Json, tag: string, sprint: Json -> string)
    requires tag != "" && |WithTag(kept, tag)| <= 1
    ensures WithTag(AddItem(kept, item, true, sprint), tag) ==
            if !(item.Obj? && TagOf(item) == tag) then WithTag(kept, tag)
            else if WithTag(kept, tag) == [] then [item.fields]
            else [Merged(WithTag(kept, tag)[0], item.fields, sprint)]
  {
    var i := FirstWithTag(kept, TagOf(item));
    WithTagAbsent(kept, TagOf(item));
    if TagOf(item) == "" || i == |kept| {
      WithTagAppend(kept, item, tag);
    } else {
      MergedShape(kept[i].fields, item.fields, sprint);
      WithTagUpdate(kept, i, Merged(kept[i].fields, item.fields, sprint), tag);
    }
  }

  lemma KeptStep(kept: seq<Json>, copies: seq<Fields>, item: Json, tag: string, sprint: Json -> string)
    requires tag != "" && WithTag(kept, tag) == Folded(copies, sprint)
    ensures WithTag(AddItem(kept, item, true, sprint), tag)
         == Folded(copies + if item.Obj? && TagOf(item) == tag then [item.fields] else [], sprint)
  {
    AddItemWithTag(kept, item, tag, sprint);
    if item.Obj? && TagOf(item) == tag {
      FoldOneMore(copies, item.fields, sprint);
    } else {
      assert copies + [] == copies;
    }
  }

  /** After deduplication every tag is carried by one inbound at most: its first copy with the
      clients of the later ones folded in. */
  lemma {:induction false} DedupedWithTag(items: seq<Json>, tag: string, sprint: Json -> string)
    requires tag != ""
    ensures WithTag(Deduped(items, true, sprint), tag) == Folded(WithTag(items, tag), sprint)
  {
    if items != [] {
      var before, item := items[..|items| - 1], items[|items| - 1];
      DedupedWithTag(before, tag, sprint);
      KeptStep(Deduped(before, true, sprint), WithTag(before, tag), item, tag, sprint);
    }
  }

  /** Nothing before the item has its tag; an item without a tag is on its own. */
  ghost predicate FirstOfTag(items: seq<Json>, k: nat)
    requires k < |items|
  {
    StringField(items[k], "tag") == "" || forall j :: 0 <= j < k ==> StringField(items[j], "tag") != StringField(items[k], "tag")
  }

  /** `r` holds the items that are the first of their tag, in their order, each unchanged; an inbound
      with a tag may have been merged with others. */
  ghost predicate HoldsFirsts(r: seq<Json>, items: seq<Json>, at: seq<nat>, inbounds: bool)
  {
    OldItems(r, items, at, inbounds) && FirstsAt(items, at)
  }

  ghost predicate FirstsAt(items: seq<Json>, at: seq<nat>)
  {
    forall k :: 0 <= k < |items| ==> (k in at <==> FirstOfTag(items, k))
  }

  ghost predicate OldItems(r: seq<Json>, items: seq<Json>, at: seq<nat>, inbounds: bool)
  {
    && |at| == |r|
    && (forall i, j :: 0 <= i < j < |at| ==> at[i] < at[j])
    && (forall i :: 0 <= i < |at| ==> at[i] < |items|)
    && (forall i :: 0 <= i < |at| ==> OldItem(r[i], items[at[i]], inbounds))
  }

  predicate OldItem(now: Json, before: Json, inbounds: bool)
  {
    && StringField(now, "tag") == StringField(before, "tag")
    && (!inbounds || StringField(now, "tag") == "" ==> now == before)
  }

  /** Deduplication keeps the places of the first copies, and of everything without a tag. */
  lemma {:induction false} DedupedPlaces(items: seq<Json>, inbounds: bool, sprint: Json -> string) returns (at: seq<nat>)
    ensures HoldsFirsts(Deduped(items, inbounds, sprint), items, at, inbounds)
  {
    at := [];
    if items != [] {
      var init, n := items[..|items| - 1], |items| - 1;
      var kept := Deduped(init, inbounds, sprint);
      at := DedupedPlaces(init, inbounds, sprint);
      assert init + [items[n]] == items;
      at := OneMorePlace(kept, init, at, items[n], inbounds, sprint);
    }
  }

  lemma OneMorePlace(kept: seq<Json>, items: seq<Json>, at: seq<nat>, item: Json, inbounds: bool, sprint: Json -> string)
    returns (after: seq<nat>)
    requires HoldsFirsts(kept, items, at, inbounds)
    ensures HoldsFirsts(AddItem(kept, item, inbounds, sprint), items + [item], after, inbounds)
  {
    var fresh_ := TagOf(item) == "" || FirstWithTag(kept, TagOf(item)) == |kept|;
    after := if fresh_ then at + [|items|] else at;
    FirstMatches(kept, items, at, item, inbounds);
    StillOld(kept, items, at, item, inbounds, sprint);
    FirstsMore(items, item, at, fresh_);
  }

  lemma FirstsMore(items: seq<Json>, item: Json, at: seq<nat>, fresh_: bool)
    requires FirstsAt(items, at) && forall i :: 0 <= i < |at| ==> at[i] < |items|
    requires fresh_ <==> StringField(item, "tag") == ""
                         || forall j :: 0 <= j < |items| ==> StringField(items[j], "tag") != StringField(item, "tag")
    ensures FirstsAt(items + [item], if fresh_ then at + [|items|] else at)
  {
    SameFirsts(items, item);
    NewPlace(at, |items|);
    var after := if fresh_ then at + [|items|] else at;
    forall k | 0 <= k <= |items| ensures k in after <==> FirstOfTag(items + [item], k) {
    }
  }

  lemma NewPlace(at: seq<nat>, n: nat)
    requires forall i :: 0 <= i < |at| ==> at[i] < n
    ensures n !in at && n in at + [n]
  {
    assert (at + [n])[|at|] == n;
  }

  lemma StillOld(kept: seq<Json>, items: seq<Json>, at: seq<nat>, item: Json, inbounds: bool, sprint: Json -> string)
    requires OldItems(kept, items, at, inbounds)
    ensures OldItems(AddItem(kept, item, inbounds, sprint), items + [item],
                     if TagOf(item) == "" || FirstWithTag(kept, TagOf(item)) == |kept| then at + [|items|] else at, inbounds)
  {
    var tag, i := TagOf(item), FirstWithTag(kept, TagOf(item));
    StillThere(kept, items, at, item, inbounds);
    if tag != "" && i < |kept| && inbounds {
      MergedShape(kept[i].fields, item.fields, sprint);
      OldMerged(kept, items + [item], at, i, Obj(Merged(kept[i].fields, item.fields, sprint)));
    }
  }

  lemma StillThere(kept: seq<Json>, items: seq<Json>, at: seq<nat>, item: Json, inbounds: bool)
    requires OldItems(kept, items, at, inbounds)
    ensures OldItems(kept, items + [item], at, inbounds) && OldItems(kept + [item], items + [item], at + [|items|], inbounds)
  {
  }

  lemma OldMerged(kept: seq<Json>, items: seq<Json>, at: seq<nat>, i: nat, x: Json)
    requires OldItems(kept, items, at, true) && i < |kept|
    requires StringField(x, "tag") == StringField(kept[i], "tag") != ""
    ensures OldItems(kept[i := x], items, at, true)
  {
  }

  lemma SameFirsts(items: seq<Json>, item: Json)
    ensures forall k :: 0 <= k < |items| ==> (FirstOfTag(items + [item], k) <==> FirstOfTag(items, k))
    ensures FirstOfTag(items + [item], |items|) <==>
              StringField(item, "tag") == "" || forall j :: 0 <= j < |items| ==> StringField(items[j], "tag") != StringField(item, "tag")
  {
    var all := items + [item];
    assert all[|items|] == item && forall j :: 0 <= j < |items| ==> all[j] == items[j];
  }

  /** A tag has been kept exactly if it has been met. */
  lemma FirstMatches(kept: seq<Json>, items: seq<Json>, at: seq<nat>, item: Json, inbounds: bool)
    requires HoldsFirsts(kept, items, at, inbounds)
    ensures TagOf(item) != "" ==>
              (FirstWithTag(kept, TagOf(item)) == |kept| <==> forall j :: 0 <= j < |items| ==> StringField(items[j], "tag") != TagOf(item))
  {
    var tag := TagOf(item);
    var i := FirstWithTag(kept, tag);
    if tag != "" && i < |kept| {
      assert StringField(items[at[i]], "tag") == tag;
    }
    if tag != "" && exists j :: 0 <= j < |items| && StringField(items[j], "tag") == tag {
      var j :| 0 <= j < |items| && StringField(items[j], "tag") == tag;
      var k := LeastWithTag(items, tag, j);
      assert FirstOfTag(items, k) && k in at;
      var m :| 0 <= m < |at| && at[m] == k;
      assert TagOf(kept[m]) == tag && kept[m].Obj?;
    }
  }

  lemma {:induction false} LeastWithTag(items: seq<Json>, tag: string, j: nat) returns (k: nat)
    requires j < |items| && StringField(items[j], "tag") == tag
    ensures k <= j && StringField(items[k], "tag") == tag && forall i :: 0 <= i < k ==> StringField(items[i], "tag") != tag
  {
    k := j;
    if i :| 0 <= i < j && StringField(items[i], "tag") == tag {
      k := LeastWithTag(items, tag, i);
    }
  }

  // ----- replacing an inbound -----

  /** The array with the inbound in the place of the first one of its tag, or at the end. */
  function Placed(items: seq<Json>, inbound: Fields): seq<Json>
  {
    var tag := TagOf(Obj(inbound));
    var i := FirstWithTag(items, tag);
    if tag != "" && i < |items| then items[i := Obj(inbound)] else items + [Obj(inbound)]
  }

  /** The inbound takes the place of the first of its tag; without one, or without a tag, it comes last. */
  lemma PlacedMeans(items: seq<Json>, inbound: Fields, i: nat)
    requires i <= |items| && forall k :: 0 <= k < i ==> StringField(items[k], "tag") != StringField(Obj(inbound), "tag")
    ensures i < |items| && StringField(items[i], "tag") == StringField(Obj(inbound), "tag") != "" ==>
              Placed(items, inbound) == items[i := Obj(inbound)]
    ensures i == |items| || StringField(Obj(inbound), "tag") == "" ==> Placed(items, inbound) == items + [Obj(inbound)]
  {
  }

  ghost function Upserted(items: seq<Json>, inbound: Fields, sprint: Json -> string): seq<Json>
  {
    Deduped(Placed(items, inbound), true, sprint)
  }

  /** The copies of the inbound's tag that replacing leaves behind it: all but the first. */
  function LaterCopies(items: seq<Json>, inbound: Fields): seq<Fields>
  {
    var copies := WithTag(items, TagOf(Obj(inbound)));
    if copies == [] then [] else copies[1..]
  }

  lemma PlacedWithTag(items: seq<Json>, inbound: Fields, tag: string)
    requires tag != ""
    ensures tag == TagOf(Obj(inbound)) ==> WithTag(Placed(items, inbound), tag) == [inbound] + LaterCopies(items, inbound)
    ensures tag != TagOf(Obj(inbound)) ==> WithTag(Placed(items, inbound), tag) == WithTag(items, tag)
  {
    var own := TagOf(Obj(inbound));
    var i := FirstWithTag(items, own);
    WithTagAbsent(items, own);
    if own != "" && i < |items| {
      WithTagUpdate(items, i, inbound, tag);
    } else {
      WithTagAppend(items, Obj(inbound), tag);
    }
  }

  lemma FoldedCons(first: Fields, later: seq<Fields>, sprint: Json -> string)
    ensures Folded([first] + later, sprint) == [MergedAll(first, later, sprint)]
  {
    assert ([first] + later)[1..] == later;
  }

  /** What the replaced array holds for the inbound's tag, and for the others. */
  lemma UpsertedWithTag(items: seq<Json>, inbound: Fields, tag: string, sprint: Json -> string)
    requires tag != ""
    ensures tag == TagOf(Obj(inbound)) ==>
              WithTag(Upserted(items, inbound, sprint), tag) == [MergedAll(inbound, LaterCopies(items, inbound), sprint)]
    ensures tag != TagOf(Obj(inbound)) ==> WithTag(Upserted(items, inbound, sprint), tag) == Folded(WithTag(items, tag), sprint)
  {
    PlacedWithTag(items, inbound, tag);
    DedupedWithTag(Placed(items, inbound), tag, sprint);
    FoldedCons(inbound, LaterCopies(items, inbound), sprint);
  }

  /** Replaces the inbound of the tag, deduplicates both arrays and returns the inbound as it stands. */
  method UpsertInbound(inbounds: seq<Json>, outbounds: seq<Json>, inbound: Fields, sprint: Json -> string)
    returns (newInbounds: seq<Json>, newOutbounds: seq<Json>, final: Fields)
    ensures newInbounds == Upserted(inbounds, inbound, sprint) && newOutbounds == Deduped(outbounds, false, sprint)
    ensures TagOf(Obj(inbound)) == "" ==> final == inbound
    ensures TagOf(Obj(inbound)) != "" ==> final == MergedAll(inbound, LaterCopies(inbounds, inbound), sprint)
  {
    var newTag := TagOf(Obj(inbound));
    newInbounds := inbounds;
    if newTag != "" {
      var i := FirstWithTag(inbounds, newTag);
      if i < |inbounds| {
        newInbounds := newInbounds[i := Obj(inbound)];
      } else {
        newInbounds := newInbounds + [Obj(inbound)];
      }
    } else {
      newInbounds := newInbounds + [Obj(inbound)];
    }
    assert newInbounds == Placed(inbounds, inbound);
    var removed;
    newInbounds, removed := DedupeTaggedArray(newInbounds, true, sprint);
    newOutbounds, removed := DedupeTaggedArray(outbounds, false, sprint);
    final := inbound;
    if newTag != "" {
      UpsertedWithTag(inbounds, inbound, newTag, sprint);
      WithTagAbsent(newInbounds, newTag);
      var i := FirstWithTag(newInbounds, newTag);
      WithTagUpdate(newInbounds, i, inbound, newTag);
      final := newInbounds[i].fields;
    }
  }

  // ----- finding the inbound of a tag again -----

  datatype Lookup = Absent | Present(inbound: Fields) | Duplicate

  /** The objects whose tag, without the spaces around it, is the given one. */
  function Matching(items: seq<Json>, tag: string): seq<Fields>
  {
    if items == [] then []
    else
      var last := items[|items| - 1];
      Matching(items[..|items| - 1], tag) + if last.Obj? && TrimSpace(TagOf(last)) == tag then [last.fields] else []
  }

  function LookedUp(items: seq<Json>, tag: string): Lookup
  {
    LookupOf(Matching(items, tag))
  }

  method FindInbound(items: seq<Json>, tag: string) returns (r: Lookup)
    requires tag != ""
    ensures r == LookedUp(items, tag)
  {
    r := Absent;
    assert items[..0] == [];
    for n := 0 to |items|
      invariant r == LookedUp(items[..n], tag) && r != Duplicate
    {
      LookedUpNext(items, n, tag);
      if !items[n].Obj? || TrimSpace(TagOf(items[n])) != tag {
        continue;
      }
      if r != Absent {
        DuplicateStays(items, n + 1, tag);
        r := Duplicate;
        return;
      }
      r := Present(items[n].fields);
    }
    assert items[..|items|] == items;
  }

  lemma MatchingNext(items: seq<Json>, n: nat, tag: string)
    requires n < |items|
    ensures var matches := items[n].Obj? && TrimSpace(TagOf(items[n])) == tag;
            && (matches ==> Matching(items[..n + 1], tag) == Matching(items[..n], tag) + [items[n].fields])
            && (!matches ==> Matching(items[..n + 1], tag) == Matching(items[..n], tag))
  {
    assert items[..n + 1][..n] == items[..n];
  }

  lemma LookedUpNext(items: seq<Json>, n: nat, tag: string)
    requires n < |items|
    ensures var matches := items[n].Obj? && TrimSpace(TagOf(items[n])) == tag;
            && (!matches ==> LookedUp(items[..n + 1], tag) == LookedUp(items[..n], tag))
            && (matches && LookedUp(items[..n], tag) == Absent ==> LookedUp(items[..n + 1], tag) == Present(items[n].fields))
            && (matches && LookedUp(items[..n], tag) != Absent ==> LookedUp(items[..n + 1], tag) == Duplicate)
  {
    MatchingNext(items, n, tag);
    if items[n].Obj? && TrimSpace(TagOf(items[n])) == tag {
      CountedLookup(Matching(items[..n], tag), items[n].fields);
    }
  }

  function LookupOf(found: seq<Fields>): Lookup
  {
    if found == [] then Absent else if |found| == 1 then Present(found[0]) else Duplicate
  }

  lemma CountedLookup(found: seq<Fields>, x: Fields)
    ensures LookupOf(found + [x]) == if LookupOf(found) == Absent then Present(x) else Duplicate
  {
  }

  function Gather(items: seq<Json>, there: Json -> bool): seq<Fields>
  {
    if items == [] then []
    else
      var last := items[|items| - 1];
      Gather(items[..|items| - 1], there) + if last.Obj? && there(last) then [last.fields] else []
  }

  lemma {:induction false} GatherIsFilter(items: seq<Json>, there: Json -> bool, keep: Json -> bool)
    requires forall x :: keep(x) <==> x.Obj? && there(x)
    ensures |Gather(items, there)| == |Filter(items, keep)|
    ensures forall i :: 0 <= i < |Gather(items, there)| ==> Filter(items, keep)[i] == Obj(Gather(items, there)[i])
  {
    if items != [] {
      GatherIsFilter(items[..|items| - 1], there, keep);
    }
  }

  lemma {:induction false} MatchingIsGather(items: seq<Json>, tag: string)
    ensures Matching(items, tag) == Gather(items, (item: Json) => TrimSpace(StringField(item, "tag")) == tag)
  {
    if items != [] {
      MatchingIsGather(items[..|items| - 1], tag);
    }
  }

  /** What is found at some places of a list. */
  ghost predicate FoundAt(r: Lookup, items: seq<Json>, there: Json -> bool)
  {
    && (r == Absent <==> forall k :: 0 <= k < |items| ==> !(items[k].Obj? && there(items[k])))
    && (r == Duplicate <==> exists i, j :: 0 <= i < j < |items| && items[i].Obj? && there(items[i]) && items[j].Obj? && there(items[j]))
    && (forall k :: 0 <= k < |items| && items[k].Obj? && there(items[k]) && r != Duplicate ==> r == Present(items[k].fields))
  }

  lemma PlacesDecide(items: seq<Json>, there: Json -> bool)
    ensures FoundAt(LookupOf(Gather(items, there)), items, there)
  {
    var keep := (x: Json) => x.Obj? && there(x);
    GatherIsFilter(items, there, keep);
    var at := FilterPlaces(items, keep);
    if |at| >= 1 {
      assert at[0] in at;
    }
    if |at| >= 2 {
      assert at[0] in at && at[1] in at && at[0] < at[1];
    }
  }

  /** None, one or several of the items are objects whose tag, trimmed, is the given one. */
  lemma LookedUpMeans(items: seq<Json>, tag: string)
    ensures FoundAt(LookedUp(items, tag), items, (item: Json) => TrimSpace(StringField(item, "tag")) == tag)
  {
    MatchingIsGather(items, tag);
    PlacesDecide(items, (item: Json) => TrimSpace(StringField(item, "tag")) == tag);
  }

  lemma {:induction false} DuplicateStays(items: seq<Json>, n: nat, tag: string)
    requires n <= |items| && LookedUp(items[..n], tag) == Duplicate
    ensures LookedUp(items, tag) == Duplicate
    decreases |items| - n
  {
    if n == |items| {
      assert items[..n] == items;
    } else {
      LookedUpNext(items, n, tag);
      DuplicateStays(items, n + 1, tag);
    }
  }

  lemma {:induction false} WithTagMatches(items: seq<Json>, tag: string, inbound: Fields)
    requires inbound in WithTag(items, tag)
    ensures inbound in Matching(items, TrimSpace(tag)) && TagOf(Obj(inbound)) == tag
  {
    var before := items[..|items| - 1];
    if inbound in WithTag(before, tag) {
      WithTagMatches(before, tag, inbound);
    }
  }

  /** No inbound carries a tag that differs from this one by the spaces around it only. */
  ghost predicate NoSpacedTwin(items: seq<Json>, own: string)
  {
    forall t: string :: TrimSpace(t) == TrimSpace(own) && t != own ==> WithTag(items, t) == []
  }

  lemma {:induction false} MatchingIsWithTag(items: seq<Json>, own: string)
    requires NoSpacedTwin(items, own)
    ensures Matching(items, TrimSpace(own)) == WithTag(items, own)
  {
    if items != [] {
      var before, last := items[..|items| - 1], items[|items| - 1];
      assert forall t: string :: WithTag(items, t) == [] ==> WithTag(before, t) == [];
      MatchingIsWithTag(before, own);
      if last.Obj? && TrimSpace(TagOf(last)) == TrimSpace(own) {
        assert WithTag(items, TagOf(last)) != [];
      }
    }
  }

  /** Replacing an inbound leaves a differently spaced copy of its tag exactly if there was one. */
  lemma TwinsStay(items: seq<Json>, inbound: Fields, sprint: Json -> string)
    requires TrimSpace(TagOf(Obj(inbound))) != ""
    ensures NoSpacedTwin(Upserted(items, inbound, sprint), TagOf(Obj(inbound))) <==> NoSpacedTwin(items, TagOf(Obj(inbound)))
  {
    var own, after := TagOf(Obj(inbound)), Upserted(items, inbound, sprint);
    forall t: string | TrimSpace(t) == TrimSpace(own) && t != own
      ensures WithTag(after, t) == [] <==> WithTag(items, t) == []
    {
      assert t != "" by { assert TrimSpace("") == ""; }
      UpsertedWithTag(items, inbound, t, sprint);
    }
  }

  /** The inbound that was prepared against a snapshot is found again, alone and unchanged, after
      it has been written over that same configuration, exactly when the users of the copies it
      replaces can be told apart and no other tag differs from its own by spaces only. */
  lemma PreparePersistAgree(items: seq<Json>, inbound: Fields, sprint: Json -> string)
    requires TrimSpace(TagOf(Obj(inbound))) != ""
    ensures var prepared := MergedAll(inbound, LaterCopies(items, inbound), sprint);
            LookedUp(Upserted(items, prepared, sprint), TrimSpace(TagOf(Obj(inbound)))) == Present(prepared)
            <==> CopiesIdentified(inbound, LaterCopies(items, inbound), sprint) && NoSpacedTwin(items, TagOf(Obj(inbound)))
  {
    var own, later := TagOf(Obj(inbound)), LaterCopies(items, inbound);
    var prepared := MergedAll(inbound, later, sprint);
    var after := Upserted(items, prepared, sprint);
    MergedAllShape(inbound, later, 0, sprint);
    assert own != "" by { assert TrimSpace("") == ""; }
    UpsertedWithTag(items, prepared, own, sprint);
    FoldTwice(inbound, later, sprint);
    TwinsStay(items, prepared, sprint);
    if NoSpacedTwin(after, own) {
      MatchingIsWithTag(after, own);
    } else {
      TwinIsDuplicate(after, own);
    }
  }

  lemma TwoAreDuplicate(items: seq<Json>, tag: string, one: Fields, other: Fields)
    requires one in Matching(items, tag) && other in Matching(items, tag) && one != other
    ensures LookedUp(items, tag) == Duplicate
  {
    TwoFound(Matching(items, tag), one, other);
  }

  lemma TwoFound(found: seq<Fields>, one: Fields, other: Fields)
    requires one in found && other in found && one != other
    ensures LookupOf(found) == Duplicate
  {
    var i :| 0 <= i < |found| && found[i] == one;
    var j :| 0 <= j < |found| && found[j] == other;
    assert i != j;
  }

  lemma TwinIsDuplicate(items: seq<Json>, own: string)
    requires WithTag(items, own) != [] && !NoSpacedTwin(items, own)
    ensures LookedUp(items, TrimSpace(own)) == Duplicate
  {
    var t: string :| TrimSpace(t) == TrimSpace(own) && t != own && WithTag(items, t) != [];
    TwoTags(items, own, t);
  }

  lemma TwoTags(items: seq<Json>, s: string, t: string)
    requires TrimSpace(s) == TrimSpace(t) && s != t && WithTag(items, s) != [] && WithTag(items, t) != []
    ensures LookedUp(items, TrimSpace(s)) == Duplicate
  {
    var one, other := WithTag(items, s)[0], WithTag(items, t)[0];
    WithTagMatches(items, s, one);
    WithTagMatches(items, t, other);
    TwoAreDuplicate(items, TrimSpace(s), one, other);
  }

  // ----- removing an inbound -----

  /** `virtualTag` is the "<protocol>-<port>" that an inbound without a tag is listed under. */
  predicate Removes(item: Json, tag: string, virtualTag: Fields -> string)
  {
    item.Obj? && (TagOf(item) == tag || (TagOf(item) == "" && virtualTag(item.fields) != "" && tag == virtualTag(item.fields)))
  }

  function Remaining(items: seq<Json>, tag: string, virtualTag: Fields -> string): seq<Json>
  {
    if items == [] then []
    else
      var last := items[|items| - 1];
      Remaining(items[..|items| - 1], tag, virtualTag) + if Removes(last, tag, virtualTag) then [] else [last]
  }

  /** What is left is everything but the objects with the tag, and those without one that are listed
      under it; "" is nobody's listing. */
  lemma {:induction false} RemainingAre(items: seq<Json>, tag: string, virtualTag: Fields -> string)
    ensures Remaining(items, tag, virtualTag) == Filter(items, (item: Json) =>
              item.Obj? ==>
                && StringField(item, "tag") != tag
                && (StringField(item, "tag") == "" && virtualTag(item.fields) != "" ==> virtualTag(item.fields) != tag))
  {
    if items != [] {
      RemainingAre(items[..|items| - 1], tag, virtualTag);
    }
  }

  method RemoveInbound(items: seq<Json>, tag: string, virtualTag: Fields -> string) returns (kept: seq<Json>)
    ensures kept == Remaining(items, tag, virtualTag)
  {
    kept := [];
    assert items[..0] == [];
    for n := 0 to |items|
      invariant kept == Remaining(items[..n], tag, virtualTag)
    {
      assert items[..n + 1][..n] == items[..n];
      if items[n].Obj? {
        var ibTag := TagOf(items[n]);
        if ibTag == tag {
          continue;
        }
        if ibTag == "" && virtualTag(items[n].fields) != "" && tag == virtualTag(items[n].fields) {
          continue;
        }
      }
      kept := kept + [items[n]];
    }
    assert items[..|items|] == items;
  }

  /** Removing a tag takes away every inbound of it and none of another tag. */
  lemma {:induction false} RemainingWithTag(items: seq<Json>, tag: string, other: string, virtualTag: Fields -> string)
    requires other != ""
    ensures WithTag(Remaining(items, tag, virtualTag), other) == if other == tag then [] else WithTag(items, other)
  {
    if items != [] {
      var before, last := items[..|items| - 1], items[|items| - 1];
      RemainingWithTag(before, tag, other, virtualTag);
      if Removes(last, tag, virtualTag) {
        assert Remaining(items, tag, virtualTag) == Remaining(before, tag, virtualTag);
      } else {
        WithTagAppend(Remaining(before, tag, virtualTag), last, other);
      }
    }
  }
}

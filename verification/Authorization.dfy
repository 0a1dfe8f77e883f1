/** Suspending and resuming the managed inbounds of an embedded Xray, one by one. */
module Authorizations {
  import opened Json
  import opened InboundConfig
  import opened Fences
  import opened FenceMachine

  /** A managed tag with its inbound in the configuration file, if it still has one. */
  datatype Definition = Definition(tag: string, inbound: Option<Fields>)

  /** What one round makes of an inbound that was live or not. */
  function Enforced(authorized: bool, d: Definition, mapped: bool, live: Option<Fields>, o: Outcome): Option<Fields>
  {
    if !authorized || !mapped then
      if o.ok || o.left.Gone? then None else live
    else if live.Some? || d.inbound.None? then live
    else if o.ok || o.left.There? then d.inbound
    else None
  }

  /** Whether a round reports a failure. An answer "not found" to a removal counts as done. */
  predicate Failing(authorized: bool, d: Definition, mapped: bool, live: bool, o: Outcome)
  {
    if !authorized then live && !o.ok && !o.missing
    else !mapped || (!live && d.inbound.Some? && !o.ok)
  }

  /** Denied, or without a limiter mapping, an inbound goes, unless its removal left it there. Otherwise
      one that is live stays as it is, and one that is not comes back as the file defines it, if it
      does and the runtime took it. */
  lemma EnforcedMeans(authorized: bool, d: Definition, mapped: bool, live: Option<Fields>, o: Outcome)
    ensures var r := Enforced(authorized, d, mapped, live, o);
            if authorized && mapped
            then (live != None ==> r == live)
                 && (live == None && d.inbound != None && (o.ok || o.left == There) ==> r == d.inbound)
                 && (live == None && (d.inbound == None || (!o.ok && o.left != There)) ==> r == None)
            else (r == None || r == live) && (live != None ==> (r == None <==> o.ok || o.left == Gone))
    ensures Failing(authorized, d, mapped, live != None, o) <==>
              || (authorized && !mapped)
              || (authorized && live == None && d.inbound != None && !o.ok)
              || (!authorized && live != None && !(o.ok || o.missing))
  {
  }

  function Held(inbounds: map<string, Fields>, tag: string): Option<Fields>
  {
    if tag in inbounds then Some(inbounds[tag]) else None
  }

  ghost predicate Defines(definitions: seq<Definition>, tag: string)
  {
    exists d :: d in definitions && d.tag == tag
  }

  predicate Distinct(definitions: seq<Definition>)
  {
    forall i, j :: 0 <= i < j < |definitions| ==> definitions[i].tag != definitions[j].tag
  }

  /** A whole pass over the managed inbounds: each ends as its own outcome says, and no other is touched. */
  ghost predicate Passed(before: map<string, Fields>, after: map<string, Fields>, authorized: bool, definitions: seq<Definition>,
                         mapped: string -> bool, outcome: string -> Outcome)
  {
    && (forall tag: string :: !Defines(definitions, tag) ==> Held(after, tag) == Held(before, tag))
    && (forall d :: d in definitions ==>
          Held(after, d.tag) == Enforced(authorized, d, mapped(d.tag), Held(before, d.tag), outcome(d.tag)))
  }

  // ----- the steps of the machine are such passes -----

  /** The tags that the removals of a denial leave behind. */
  function FailingOf(h: Host, outcome: string -> Outcome): map<string, Left>
  {
    map tag | tag in ManagedTags(h) && !outcome(tag).ok :: outcome(tag).left
  }

  lemma DenialEnforces(h: Host, d: Definition, mapped: bool, outcome: string -> Outcome)
    requires d.tag in ManagedTags(h)
    ensures Live(Denied(h, FailingOf(h, outcome)), d.tag) == Enforced(false, d, mapped, Live(h, d.tag), outcome(d.tag))
  {
  }

  /** A pass over all managed inbounds while the server is not authorized is the machine's denial. */
  lemma PassIsDenial(h: Host, after: map<string, Fields>, definitions: seq<Definition>, mapped: string -> bool, outcome: string -> Outcome)
    requires forall tag: string :: Defines(definitions, tag) <==> tag in ManagedTags(h)
    requires Passed(h.runtime, after, false, definitions, mapped, outcome)
    ensures after == Denied(h, FailingOf(h, outcome)).runtime
  {
    var runtime := Denied(h, FailingOf(h, outcome)).runtime;
    forall tag: string ensures Held(after, tag) == Held(runtime, tag) {
      if Defines(definitions, tag) {
        var d :| d in definitions && d.tag == tag;
        DenialEnforces(h, d, mapped(tag), outcome);
      }
    }
    SameHeld(after, runtime);
  }

  lemma SameHeld(a: map<string, Fields>, b: map<string, Fields>)
    requires forall tag: string :: Held(a, tag) == Held(b, tag)
    ensures a == b
  {
    forall tag: string ensures tag in a <==> tag in b
                       ensures tag in a ==> a[tag] == b[tag]
    {
      assert Held(a, tag) == Held(b, tag);
    }
  }

  /** The machine's re-enabling of each managed inbound, one after the other. */
  function ReenabledAll(h: Host, definitions: seq<Definition>, mapped: string -> bool, outcome: string -> Outcome): Host
  {
    if definitions == [] then h
    else
      var last := definitions[|definitions| - 1];
      Reenabled(ReenabledAll(h, definitions[..|definitions| - 1], mapped, outcome), last.tag, mapped(last.tag), outcome(last.tag))
  }

  lemma ReenablingEnforces(h: Host, tag: string, mapped: bool, o: Outcome)
    requires h.running
    ensures var g := Reenabled(h, tag, mapped, o);
            && g == h.(runtime := g.runtime)
            && Live(g, tag) == Enforced(true, Definition(tag, Original(Snapshot(h), tag)), mapped, Live(h, tag), o)
            && forall t: string :: t != tag ==> Live(g, t) == Live(h, t)
  {
  }

  /** A pass while the server is authorized is what the machine's re-enablings make of the runtime. */
  lemma {:induction false} ReenablingsPass(h: Host, definitions: seq<Definition>, mapped: string -> bool, outcome: string -> Outcome)
    requires h.running && Distinct(definitions)
    requires forall d :: d in definitions ==> d.inbound == Original(Snapshot(h), d.tag)
    ensures var g := ReenabledAll(h, definitions, mapped, outcome);
            g == h.(runtime := g.runtime) && Passed(h.runtime, g.runtime, true, definitions, mapped, outcome)
  {
    if definitions != [] {
      var init, last := definitions[..|definitions| - 1], definitions[|definitions| - 1];
      var before := ReenabledAll(h, init, mapped, outcome);
      ReenablingsPass(h, init, mapped, outcome);
      ReenablingEnforces(before, last.tag, mapped(last.tag), outcome(last.tag));
      OneMorePassed(h, before, init, last, mapped, outcome);
      assert definitions == init + [last];
    }
  }

  lemma OneMorePassed(h: Host, before: Host, init: seq<Definition>, last: Definition, mapped: string -> bool, outcome: string -> Outcome)
    requires Distinct(init + [last]) && before == h.(runtime := before.runtime) && h.running
    requires last.inbound == Original(Snapshot(h), last.tag)
    requires Passed(h.runtime, before.runtime, true, init, mapped, outcome)
    ensures Passed(h.runtime, Reenabled(before, last.tag, mapped(last.tag), outcome(last.tag)).runtime, true, init + [last], mapped, outcome)
  {
    var g := Reenabled(before, last.tag, mapped(last.tag), outcome(last.tag));
    ReenablingEnforces(before, last.tag, mapped(last.tag), outcome(last.tag));
    NotAmong(init, last);
    assert Live(before, last.tag) == Held(h.runtime, last.tag);
    forall tag: string ensures tag != last.tag ==> Held(g.runtime, tag) == Held(before.runtime, tag)
                       ensures Defines(init + [last], tag) <==> Defines(init, tag) || tag == last.tag
    {
      assert Live(g, tag) == Held(g.runtime, tag) && Live(before, tag) == Held(before.runtime, tag);
      assert last in init + [last];
    }
    forall d | d in init + [last]
      ensures Held(g.runtime, d.tag) == Enforced(true, d, mapped(d.tag), Held(h.runtime, d.tag), outcome(d.tag))
    {
      if d in init {
        assert Defines(init, d.tag);
      }
    }
  }

  lemma NotAmong(init: seq<Definition>, last: Definition)
    requires Distinct(init + [last])
    ensures !Defines(init, last.tag)
  {
    var all := init + [last];
    forall i | 0 <= i < |init| ensures init[i].tag != last.tag {
      assert all[i] == init[i] && all[|init|] == last;
    }
  }

  class Runtime {
    var inbounds: map<string, Fields>

    method Remove(tag: string, o: Outcome) returns (ok: bool)
      modifies this
      ensures ok <==> o.ok || o.missing
      ensures inbounds == if o.ok || o.left.Gone? then old(inbounds) - {tag} else old(inbounds)
    {
      if o.ok || o.left.Gone? {
        inbounds := inbounds - {tag};
      }
      ok := o.ok || o.missing;
    }

    method Add(tag: string, inbound: Fields, o: Outcome) returns (ok: bool)
      requires tag !in inbounds
      modifies this
      ensures ok <==> o.ok
      ensures inbounds == if o.ok || o.left.There? then old(inbounds)[tag := inbound] else old(inbounds)
    {
      if o.ok || o.left.There? {
        inbounds := inbounds[tag := inbound];
      }
      ok := o.ok;
    }

    /** Goes through the managed inbounds; whatever fails, the others are still seen to. Without a
        failure all are off, but for those whose removal failed with an error like "not found", or
        all that have a definition are on. */
    method Enforce(authorized: bool, definitions: seq<Definition>, mapped: string -> bool, outcome: string -> Outcome)
      returns (failed: set<string>)
      requires Distinct(definitions)
      modifies this
      ensures Passed(old(inbounds), inbounds, authorized, definitions, mapped, outcome)
      ensures forall d :: d in definitions ==>
                (d.tag in failed <==> Failing(authorized, d, mapped(d.tag), d.tag in old(inbounds), outcome(d.tag)))
      ensures forall tag :: tag in failed ==> Defines(definitions, tag)
      ensures !authorized && failed == {} ==>
                forall d :: d in definitions ==> d.tag !in inbounds || (!outcome(d.tag).ok && outcome(d.tag).missing)
      ensures authorized && failed == {} ==> forall d :: d in definitions ==> (d.inbound.Some? ==> d.tag in inbounds)
    {
      failed := {};
      var active := inbounds.Keys;
      for n := 0 to |definitions|
        invariant forall tag: string :: (forall i :: 0 <= i < n ==> definitions[i].tag != tag) ==> Held(inbounds, tag) == Held(old(inbounds), tag)
        invariant forall i :: 0 <= i < n ==>
          var d := definitions[i];
          Held(inbounds, d.tag) == Enforced(authorized, d, mapped(d.tag), Held(old(inbounds), d.tag), outcome(d.tag))
        invariant forall tag :: tag in failed ==> exists i :: 0 <= i < n && definitions[i].tag == tag
        invariant forall i :: 0 <= i < n ==>
          var d := definitions[i];
          (d.tag in failed <==> Failing(authorized, d, mapped(d.tag), d.tag in old(inbounds), outcome(d.tag)))
      {
        var d := definitions[n];
        var running := d.tag in active;
        assert Held(inbounds, d.tag) == Held(old(inbounds), d.tag);
        if !authorized {
          if !running {
            continue;
          }
          var ok := Remove(d.tag, outcome(d.tag));
          if !ok {
            failed := failed + {d.tag};
          }
          continue;
        }
        if !mapped(d.tag) {
          if running {
            var _ := Remove(d.tag, outcome(d.tag));
          }
          failed := failed + {d.tag};
          continue;
        }
        if running || d.inbound.None? {
          continue;
        }
        var ok := Add(d.tag, d.inbound.value, outcome(d.tag));
        if !ok {
          failed := failed + {d.tag};
        }
      }
    }
  }
}

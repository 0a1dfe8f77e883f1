/** The maps that the fence machine keeps for configuration files stand for real inbounds arrays. */
module FenceConfigs {
  import opened Json
  import opened InboundConfig
  import opened Fences
  import opened FenceMachine

  ghost predicate Represents(items: seq<Json>, c: Config)
  {
    forall tag: string :: tag != "" ==> WithTag(items, tag) == Copies(c, tag)
  }

  /** Writing an inbound into the array is what the machine does to the map. */
  lemma UpsertRepresents(items: seq<Json>, c: Config, inbound: Fields, env: Env)
    requires Represents(items, c) && TagOf(Obj(inbound)) != ""
    ensures Represents(Upserted(items, inbound, env.sprint), Upsert(c, TagOf(Obj(inbound)), inbound, env))
  {
    var own, d := TagOf(Obj(inbound)), Upsert(c, TagOf(Obj(inbound)), inbound, env);
    forall tag: string | tag != "" ensures WithTag(Upserted(items, inbound, env.sprint), tag) == Copies(d, tag) {
      UpsertedWithTag(items, inbound, tag, env.sprint);
    }
  }

  lemma RemovalRepresents(items: seq<Json>, c: Config, tag: string, virtualTag: Fields -> string)
    requires Represents(items, c) && tag != ""
    ensures Represents(Remaining(items, tag, virtualTag), c - {tag})
  {
    forall t: string | t != "" ensures WithTag(Remaining(items, tag, virtualTag), t) == Copies(c - {tag}, t) {
      RemainingWithTag(items, tag, t, virtualTag);
    }
  }

  /** Looking a tag up in the array finds what the map has for it, unless another tag differs from
      it by spaces only. */
  lemma LookupRepresents(items: seq<Json>, c: Config, tag: string)
    requires Represents(items, c) && tag != "" && TrimSpace(tag) == tag && NoSpacedTwin(items, tag)
    ensures LookedUp(items, tag) == (if Copies(c, tag) == [] then Absent
                                     else if |Copies(c, tag)| == 1 then Present(Copies(c, tag)[0]) else Duplicate)
  {
    MatchingIsWithTag(items, tag);
  }
}

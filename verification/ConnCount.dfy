/** Counting connections with atomic adds: every interleaving of the steps of any number of
    connections. */
module ConnCounts {

  /** Where a connection is. Between its two atomic steps a new one knows the count it saw. */
  datatype Phase =
    | Fresh
    | Tentative(seen: int)
    | Rejected
    | Admitted
    | Clamping
    | Ended

  /** A connection of a user: the group whose counter it shares, and the limit of that user. */
  datatype Conn = Conn(group: string, limit: int, phase: Phase)

  datatype World = World(counters: map<string, int>, conns: map<nat, Conn>)

  function Counter(w: World, group: string): int
  {
    if group in w.counters then w.counters[group] else 0
  }

  predicate Refused(limit: int, seen: int)
  {
    limit > 0 && seen > limit
  }

  function With(w: World, id: nat, phase: Phase, counter: int): World
    requires id in w.conns
  {
    var c := w.conns[id];
    World(w.counters[c.group := counter], w.conns[id := c.(phase := phase)])
  }

  /** One atomic step of a connection. Releasing below zero sets the counter to zero, in a step of
      its own. */
  function Step(w: World, id: nat): World
  {
    if id !in w.conns then w
    else
      var c := w.conns[id];
      var n := Counter(w, c.group);
      match c.phase
      case Fresh => With(w, id, Tentative(n + 1), n + 1)
      case Tentative(seen) => if Refused(c.limit, seen) then With(w, id, Rejected, n - 1) else With(w, id, Admitted, n)
      case Admitted => With(w, id, if n - 1 < 0 then Clamping else Ended, n - 1)
      case Clamping => With(w, id, Ended, 0)
      case Rejected => w
      case Ended => w
  }

  function Run(w: World, schedule: seq<nat>): World
  {
    if schedule == [] then w else Step(Run(w, schedule[..|schedule| - 1]), schedule[|schedule| - 1])
  }

  lemma RunTakesAll(w: World, schedule: seq<nat>, id: nat)
    ensures Run(w, []) == w && Run(w, schedule + [id]) == Step(Run(w, schedule), id)
  {
    assert (schedule + [id])[..|schedule|] == schedule;
  }

  // ----- what is counted -----

  function InPhase(w: World, group: string, phases: Conn -> bool): set<nat>
  {
    set id | id in w.conns && w.conns[id].group == group && phases(w.conns[id])
  }

  /** Admitted connections, and those that have added themselves and not yet compared. */
  predicate Counted(c: Conn)
  {
    c.phase.Admitted? || c.phase.Tentative?
  }

  /** Connections that are admitted or about to be. */
  predicate Winning(c: Conn)
  {
    c.phase.Admitted? || (c.phase.Tentative? && !Refused(c.limit, c.phase.seen))
  }

  predicate IsAdmitted(c: Conn)
  {
    c.phase.Admitted?
  }

  ghost predicate Accurate(w: World)
  {
    && (forall id :: id in w.conns ==> !w.conns[id].phase.Clamping?)
    && forall group: string :: Counter(w, group) == |InPhase(w, group, Counted)|
  }

  ghost predicate Shares(w: World, group: string, limit: int)
  {
    forall id :: id in w.conns && w.conns[id].group == group ==> w.conns[id].limit == limit
  }

  lemma SizeWithout(s: set<nat>, id: nat)
    ensures |s| == |s - {id}| + if id in s then 1 else 0
  {
    if id in s {
      assert s == (s - {id}) + {id};
    } else {
      assert s == s - {id};
    }
  }

  /** The other connections are counted as before. */
  lemma OthersStay(w: World, id: nat, phase: Phase, counter: int, group: string, counts: Conn -> bool)
    requires id in w.conns
    ensures InPhase(With(w, id, phase, counter), group, counts) - {id} == InPhase(w, group, counts) - {id}
  {
  }

  /** How the set of counted connections changes when one of them moves on. */
  lemma OneMoves(w: World, id: nat, phase: Phase, counter: int, group: string, counts: Conn -> bool)
    requires id in w.conns
    ensures var before, after := InPhase(w, group, counts), InPhase(With(w, id, phase, counter), group, counts);
            var c := w.conns[id];
            var wasIn, isIn := c.group == group && counts(c), c.group == group && counts(c.(phase := phase));
            |after| == |before| + (if isIn then 1 else 0) - (if wasIn then 1 else 0)
  {
    SizeWithout(InPhase(w, group, counts), id);
    SizeWithout(InPhase(With(w, id, phase, counter), group, counts), id);
    OthersStay(w, id, phase, counter, group, counts);
  }

  lemma StepAccurate(w: World, id: nat)
    requires Accurate(w)
    ensures Accurate(Step(w, id))
  {
    var v := Step(w, id);
    if v != w {
      var c := w.conns[id];
      var n := Counter(w, c.group);
      if c.phase.Admitted? {
        AdmittedCounted(w, id);
      }
      forall group: string ensures Counter(v, group) == |InPhase(v, group, Counted)| {
        OneMoves(w, id, v.conns[id].phase, Counter(v, c.group), group, Counted);
        assert v == With(w, id, v.conns[id].phase, Counter(v, c.group));
      }
    }
  }

  lemma AdmittedCounted(w: World, id: nat)
    requires Accurate(w) && id in w.conns && w.conns[id].phase.Admitted?
    ensures Counter(w, w.conns[id].group) >= 1
  {
    assert id in InPhase(w, w.conns[id].group, Counted);
  }

  lemma WinnersAmongCounted(w: World, group: string)
    ensures |InPhase(w, group, IsAdmitted)| <= |InPhase(w, group, Winning)| <= |InPhase(w, group, Counted)|
  {
    Included(InPhase(w, group, IsAdmitted), InPhase(w, group, Winning));
    Included(InPhase(w, group, Winning), InPhase(w, group, Counted));
  }

  lemma {:induction false} Included(a: set<nat>, b: set<nat>)
    requires a <= b
    ensures |a| <= |b|
  {
    if a != {} {
      var x :| x in a;
      Included(a - {x}, b - {x});
    }
  }

  lemma StepWithinLimit(w: World, id: nat, group: string, limit: int)
    requires Accurate(w) && Shares(w, group, limit) && limit > 0 && |InPhase(w, group, Winning)| <= limit
    ensures Shares(Step(w, id), group, limit) && |InPhase(Step(w, id), group, Winning)| <= limit
  {
    var v := Step(w, id);
    if v != w {
      var c := w.conns[id];
      OneMoves(w, id, v.conns[id].phase, Counter(v, c.group), group, Winning);
      assert v == With(w, id, v.conns[id].phase, Counter(v, c.group));
      WinnersAmongCounted(w, group);
    }
  }

  ghost predicate AllFresh(w: World)
  {
    w.counters == map[] && forall id :: id in w.conns ==> w.conns[id].phase.Fresh?
  }

  /** Under every interleaving a group's counter is the number of its connections that are admitted
      or undecided, and it is never clamped. */
  lemma {:induction false} CounterExact(w: World, schedule: seq<nat>)
    requires AllFresh(w)
    ensures Accurate(Run(w, schedule))
  {
    if schedule == [] {
      forall group: string ensures |InPhase(w, group, Counted)| == 0 {
        assert InPhase(w, group, Counted) == {};
      }
    } else {
      CounterExact(w, schedule[..|schedule| - 1]);
      StepAccurate(Run(w, schedule[..|schedule| - 1]), schedule[|schedule| - 1]);
    }
  }

  /** When the users of a group share one positive limit, no more than that many of their
      connections are admitted at any time. */
  lemma {:induction false} WithinLimit(w: World, schedule: seq<nat>, group: string, limit: int)
    requires AllFresh(w) && Shares(w, group, limit) && limit > 0
    ensures var v := Run(w, schedule);
            && Shares(v, group, limit)
            && |InPhase(v, group, IsAdmitted)| <= |InPhase(v, group, Winning)| <= limit
  {
    if schedule == [] {
      assert InPhase(w, group, Winning) == {} && InPhase(w, group, IsAdmitted) == {};
    } else {
      var before := Run(w, schedule[..|schedule| - 1]);
      WithinLimit(w, schedule[..|schedule| - 1], group, limit);
      CounterExact(w, schedule[..|schedule| - 1]);
      StepWithinLimit(before, schedule[|schedule| - 1], group, limit);
      WinnersAmongCounted(Run(w, schedule), group);
    }
  }

  /** The limit is only ever reached because so many connections are counted already. */
  lemma RefusedOnlyWhenFull(w: World, schedule: seq<nat>, id: nat)
    requires AllFresh(w)
    requires var v := Run(w, schedule); id in v.conns && v.conns[id].phase.Fresh?
    ensures var v := Run(w, schedule);
            var c := v.conns[id];
            var u := Step(Step(v, id), id);
            u.conns[id].phase == if c.limit > 0 && |InPhase(v, c.group, Counted)| >= c.limit then Rejected else Admitted
  {
    CounterExact(w, schedule);
  }

  /** A release that nothing interrupts takes one off, and never leaves less than zero. */
  lemma ReleaseClamps(w: World, id: nat)
    requires id in w.conns && w.conns[id].phase.Admitted?
    ensures var v := Step(w, id);
            var u := if v.conns[id].phase.Clamping? then Step(v, id) else v;
            var before := Counter(w, w.conns[id].group);
            && u.conns[id].phase.Ended? && Counter(u, w.conns[id].group) == if before < 1 then 0 else before - 1
  {
  }

  // ----- the counters of the limiter -----

  class Counters {
    var counts: map<string, int>

    constructor ()
      ensures counts == map[]
    {
      counts := map[];
    }

    function Count(group: string): int
      reads this
    {
      if group in counts then counts[group] else 0
    }

    method AtomicAdd(group: string, delta: int) returns (n: int)
      modifies this
      ensures n == old(Count(group)) + delta && counts == old(counts)[group := n]
    {
      n := Count(group) + delta;
      counts := counts[group := n];
    }

    /** A connection that nothing interrupts between its two steps. */
    method AcquireConn(group: string, limit: int) returns (ok: bool)
      modifies this
      ensures ok <==> !(limit > 0 && old(Count(group)) >= limit)
      ensures Count(group) == old(Count(group)) + (if ok then 1 else 0)
      ensures forall g: string :: g != group ==> Count(g) == old(Count(g))
    {
      var n := AtomicAdd(group, 1);
      if limit > 0 && n > limit {
        var _ := AtomicAdd(group, -1);
        return false;
      }
      ok := true;
    }

    method ReleaseConn(group: string)
      modifies this
      ensures Count(group) == if group == "" then old(Count(group)) else if old(Count(group)) < 1 then 0 else old(Count(group)) - 1
      ensures forall g: string :: g != group ==> Count(g) == old(Count(g))
    {
      if group == "" {
        return;
      }
      var n := AtomicAdd(group, -1);
      if n < 0 {
        counts := counts[group := 0];
      }
    }
  }
}

/** The loop-parallelism test (ast_schedule_dim_is_parallel): the
    dependences are translated into pairs of timestamps through the build's
    current schedule; the loop at the innermost schedule dimension is
    parallel when no dependence that is equal on all outer dimensions is
    different on that one. */
module Parallelism {
  import opened Common

  /** A dependence relation between statement instances (flow or false). */
  type Deps = set<(Inst, Inst)>

  /** A schedule relation from statement instances to timestamps. */
  type ScheduleMap = set<(Inst, Timestamp)>

  /** What the AST build reports while it builds a loop: the schedule up to
      and including the loop's dimension, and the number of output
      dimensions of the schedule space. */
  datatype BuildSchedule = BuildSchedule(rel: ScheduleMap, outDims: nat)

  /** The schedule space holds at least the loop's own dimension, and every
      timestamp of the relation lives in that space. */
  predicate ValidSchedule(s: BuildSchedule)
  {
    s.outDims >= 1 && forall x :: x in s.rel ==> |x.1| == s.outDims
  }

  /** The dimension the loop being built iterates over. */
  function LoopDim(s: BuildSchedule): nat
    requires ValidSchedule(s)
  {
    s.outDims - 1
  }

  /** Dependences in time space: the union of both dependence relations,
      with the schedule applied to its range and then to its domain. */
  function TimeDeps(flow: Deps, falseDeps: Deps, s: BuildSchedule): (r: set<(Timestamp, Timestamp)>)
    requires ValidSchedule(s)
    ensures HasDim(r, LoopDim(s))
  {
    set x, y, z | x in flow + falseDeps && y in s.rel && z in s.rel && y.0 == x.0 && z.0 == x.1 :: (y.1, z.1)
  }

  /** That relation is the composition isl computes:
      apply_domain(apply_range(deps, schedule), schedule). */
  lemma TimeDepsIsComposition(flow: Deps, falseDeps: Deps, s: BuildSchedule)
    requires ValidSchedule(s)
    ensures TimeDeps(flow, falseDeps, s) == ApplyDomain(ApplyRange(flow + falseDeps, s.rel), s.rel)
  {
    var q := ApplyDomain(ApplyRange(flow + falseDeps, s.rel), s.rel);
    forall p | p in q ensures p in TimeDeps(flow, falseDeps, s) {
      var a :| (a, p.1) in ApplyRange(flow + falseDeps, s.rel) && (a, p.0) in s.rel;
      var b :| (a, b) in flow + falseDeps && (b, p.1) in s.rel;
      TimeDepsHasDates(flow, falseDeps, s, a, b, p.0, p.1);
    }
    forall p | p in TimeDeps(flow, falseDeps, s) ensures p in q {
      var a, b := DependenceOf(flow, falseDeps, s, p);
    }
  }

  /** The pair of dates of a dependence is in the time-space relation. */
  lemma TimeDepsHasDates(flow: Deps, falseDeps: Deps, s: BuildSchedule, a: Inst, b: Inst, ta: Timestamp, tb: Timestamp)
    requires ValidSchedule(s)
    requires (a, b) in flow + falseDeps && (a, ta) in s.rel && (b, tb) in s.rel
    ensures (ta, tb) in TimeDeps(flow, falseDeps, s)
  {
    assert ((a, b), (a, ta), (b, tb)).0 in flow + falseDeps;
  }

  /** Every pair of the time-space relation is the pair of dates of a dependence. */
  lemma DependenceOf(flow: Deps, falseDeps: Deps, s: BuildSchedule, p: (Timestamp, Timestamp)) returns (a: Inst, b: Inst)
    requires ValidSchedule(s)
    requires p in TimeDeps(flow, falseDeps, s)
    ensures (a, b) in flow + falseDeps && (a, p.0) in s.rel && (b, p.1) in s.rel
  {
    var x, y, z :| x in flow + falseDeps && y in s.rel && z in s.rel && y.0 == x.0 && z.0 == x.1 && p == (y.1, z.1);
    a, b := x.0, x.1;
  }

  /** The pairs whose timestamps are both longer than "i". */
  predicate HasDim(m: set<(Timestamp, Timestamp)>, i: nat)
  {
    forall p :: p in m ==> i < |p.0| && i < |p.1|
  }

  /** isl_map_equate on dimension "i" of the input and the output. */
  function Equate(m: set<(Timestamp, Timestamp)>, i: nat): (r: set<(Timestamp, Timestamp)>)
    requires HasDim(m, i)
    ensures r <= m
    ensures forall p :: p in r <==> p in m && p.0[i] == p.1[i]
  {
    set p | p in m && p.0[i] == p.1[i]
  }

  /** The pairs of "m" that agree on every dimension below "k". */
  function EquatedBelow(m: set<(Timestamp, Timestamp)>, k: nat): (r: set<(Timestamp, Timestamp)>)
    ensures r <= m
  {
    set p | p in m && SameBelow(p.0, p.1, k)
  }

  /** Two timestamps agree on their first "k" dimensions. */
  predicate SameBelow(t: Timestamp, u: Timestamp, k: nat)
  {
    k <= |t| && k <= |u| && forall j :: 0 <= j < k ==> t[j] == u[j]
  }

  /** A dependence from date "t" to date "u" is carried by the loop at
      dimension "d": equal outer dates, different dates at "d". */
  predicate Carries(t: Timestamp, u: Timestamp, d: nat)
  {
    d < |t| && d < |u| && SameBelow(t, u, d) && t[d] != u[d]
  }

  /** The result of ast_schedule_dim_is_parallel: an empty relation is
      parallel; otherwise the dependences equated on the outer dimensions
      must be a subset of the pairs that are equal at the loop's dimension. */
  function DimIsParallel(flow: Deps, falseDeps: Deps, s: BuildSchedule): bool
    requires ValidSchedule(s)
  {
    var deps := TimeDeps(flow, falseDeps, s);
    var d := LoopDim(s);
    forall p | p in EquatedBelow(deps, d) :: p.0[d] == p.1[d]
  }

  /** ast_schedule_dim_is_parallel as written: build the time-space
      relation, return at once when it is empty, equate the outer dimensions
      one by one, then test inclusion in the map equal at the loop's dimension. */
  method ScheduleDimIsParallel(flow: Deps, falseDeps: Deps, s: BuildSchedule) returns (isParallel: bool)
    requires ValidSchedule(s)
    ensures isParallel == DimIsParallel(flow, falseDeps, s)
  {
    var dimension := s.outDims - 1;
    var deps := TimeDeps(flow, falseDeps, s);
    EquatedBelowNothing(deps);
    if deps == {} {
      return true;
    }
    var scheduleDeps := deps;
    for i := 0 to dimension
      invariant scheduleDeps == EquatedBelow(deps, i)
    {
      EquateStep(deps, i);
      scheduleDeps := Equate(scheduleDeps, i);
    }
    isParallel := forall p | p in scheduleDeps :: p.0[dimension] == p.1[dimension];
  }

  /** Nothing is equated yet. */
  lemma EquatedBelowNothing(m: set<(Timestamp, Timestamp)>)
    ensures EquatedBelow(m, 0) == m
  {
  }

  /** Equating dimension "i" of the pairs already equal below "i" leaves
      the pairs equal below "i + 1". */
  lemma EquateStep(m: set<(Timestamp, Timestamp)>, i: nat)
    requires HasDim(m, i)
    ensures HasDim(EquatedBelow(m, i), i)
    ensures Equate(EquatedBelow(m, i), i) == EquatedBelow(m, i + 1)
  {
    var lhs := Equate(EquatedBelow(m, i), i);
    forall p | p in lhs ensures p in EquatedBelow(m, i + 1) {
      assert SameBelow(p.0, p.1, i);
    }
    forall p | p in EquatedBelow(m, i + 1) ensures p in lhs {
      assert SameBelow(p.0, p.1, i);
    }
  }

  /** The inclusion test on a time-space relation: it holds exactly when
      the relation holds no pair carried by dimension "d". */
  lemma InclusionIffNothingCarried(m: set<(Timestamp, Timestamp)>, d: nat)
    requires HasDim(m, d)
    ensures (forall p | p in EquatedBelow(m, d) :: p.0[d] == p.1[d]) <==>
      (forall p | p in m :: !Carries(p.0, p.1, d))
  {
    if forall p | p in EquatedBelow(m, d) :: p.0[d] == p.1[d] {
      forall p | p in m ensures !Carries(p.0, p.1, d) {
        if SameBelow(p.0, p.1, d) {
          assert p in EquatedBelow(m, d);
        }
      }
    }
  }

  /** A parallel loop carries no dependence; put the other way round, a
      loop that carries one is not parallel. */
  lemma ParallelCarriesNothing(flow: Deps, falseDeps: Deps, s: BuildSchedule, a: Inst, b: Inst, ta: Timestamp, tb: Timestamp)
    requires ValidSchedule(s)
    requires (a, b) in flow + falseDeps && (a, ta) in s.rel && (b, tb) in s.rel
    ensures DimIsParallel(flow, falseDeps, s) ==> !Carries(ta, tb, LoopDim(s))
  {
    TimeDepsHasDates(flow, falseDeps, s, a, b, ta, tb);
    if SameBelow(ta, tb, LoopDim(s)) {
      assert (ta, tb) in EquatedBelow(TimeDeps(flow, falseDeps, s), LoopDim(s));
    }
  }

  /** A loop that is not parallel carries some dependence. */
  lemma SequentialCarriesSome(flow: Deps, falseDeps: Deps, s: BuildSchedule) returns (a: Inst, b: Inst, ta: Timestamp, tb: Timestamp)
    requires ValidSchedule(s) && !DimIsParallel(flow, falseDeps, s)
    ensures (a, b) in flow + falseDeps && (a, ta) in s.rel && (b, tb) in s.rel && Carries(ta, tb, LoopDim(s))
  {
    var deps := TimeDeps(flow, falseDeps, s);
    var d := LoopDim(s);
    var p :| p in EquatedBelow(deps, d) && p.0[d] != p.1[d];
    a, b := DependenceOf(flow, falseDeps, s, p);
    ta, tb := p.0, p.1;
  }

  /** The test in terms of the dependences themselves: a loop is parallel
      exactly when it carries no dependence of the flow or false relation. */
  lemma ParallelIffNoCarriedDependence(flow: Deps, falseDeps: Deps, s: BuildSchedule)
    requires ValidSchedule(s)
    ensures DimIsParallel(flow, falseDeps, s) <==>
      forall a, b, ta, tb ::
        (a, b) in flow + falseDeps && (a, ta) in s.rel && (b, tb) in s.rel ==> !Carries(ta, tb, LoopDim(s))
  {
    if DimIsParallel(flow, falseDeps, s) {
      forall a, b, ta, tb | (a, b) in flow + falseDeps && (a, ta) in s.rel && (b, tb) in s.rel
        ensures !Carries(ta, tb, LoopDim(s))
      {
        ParallelCarriesNothing(flow, falseDeps, s, a, b, ta, tb);
      }
    } else {
      var a, b, ta, tb := SequentialCarriesSome(flow, falseDeps, s);
    }
  }

  /** No dependence at all: every loop is parallel. */
  lemma NoDependenceIsParallel(flow: Deps, falseDeps: Deps, s: BuildSchedule)
    requires ValidSchedule(s) && flow == {} && falseDeps == {}
    ensures DimIsParallel(flow, falseDeps, s)
  {
    if p :| p in TimeDeps(flow, falseDeps, s) {
      var a, b := DependenceOf(flow, falseDeps, s, p);
    }
  }

  /** A one-dimensional schedule space: the outer step is vacuous and the
      test is equality of the two dates of every dependence. */
  lemma OneDimensionalTest(flow: Deps, falseDeps: Deps, s: BuildSchedule)
    requires ValidSchedule(s) && s.outDims == 1
    ensures DimIsParallel(flow, falseDeps, s) <==>
      forall p :: p in TimeDeps(flow, falseDeps, s) ==> p.0[0] == p.1[0]
  {
    EquatedBelowNothing(TimeDeps(flow, falseDeps, s));
  }

  /** Dependences whose source and sink run at the same date are carried
      by no loop: such a loop is parallel. */
  lemma SameDateDependencesAreParallel(flow: Deps, falseDeps: Deps, s: BuildSchedule)
    requires ValidSchedule(s)
    requires forall a, b, ta, tb ::
      (a, b) in flow + falseDeps && (a, ta) in s.rel && (b, tb) in s.rel ==> ta == tb
    ensures DimIsParallel(flow, falseDeps, s)
  {
    ParallelIffNoCarriedDependence(flow, falseDeps, s);
  }

  /** A dependence from an instance at date [i] to one at another date [j]
      of a one-dimensional schedule crosses iterations: the loop is not
      parallel. */
  lemma CrossIterationDependenceIsNotParallel(a: Inst, b: Inst, i: int, j: int)
    requires i != j
    ensures !DimIsParallel({(a, b)}, {}, BuildSchedule({(a, [i]), (b, [j])}, 1))
  {
    var s := BuildSchedule({(a, [i]), (b, [j])}, 1);
    assert ValidSchedule(s);
    assert (a, b) in {(a, b)} + {};
    ParallelCarriesNothing({(a, b)}, {}, s, a, b, [i], [j]);
    assert Carries([i], [j], 0);
  }
}

/** Construction of the generated AST (print_scop's build): the isl engine
    materialises a tree of loops, other nodes and leaves from the schedule;
    the leaf hook annotates every leaf with its ppcg statement, and with
    OpenMP enabled the before/after-for hooks thread the in_parallel_for
    flag so that the outermost parallel loop of each path is marked. */
module Ast {
  import opened Common
  import opened Parallelism
  import opened Statements

  /** What the isl engine materialises from the schedule, before any hook
      has run: a for node with the schedule the build reports for it and
      the text the engine prints before and after its body; any other
      node (if, block) with its text; a leaf calling a statement, with the
      schedule of that leaf's instances. */
  datatype Tree =
    | For(sched: BuildSchedule, head: seq<string>, body: seq<Tree>, tail: seq<string>)
    | Block(head: seq<string>, body: seq<Tree>, tail: seq<string>)
    | User(call: Id, leafSched: ScheduleMap)

  /** struct ast_node_userinfo. */
  datatype NodeInfo = NodeInfo(isOpenmp: bool)

  /** The generated AST: a for node with its annotation (present only when
      the hooks were installed), any other node, or an annotated leaf. */
  datatype AstNode =
    | ForNode(info: Option<NodeInfo>, head: seq<string>, body: seq<AstNode>, tail: seq<string>)
    | BlockNode(head: seq<string>, body: seq<AstNode>, tail: seq<string>)
    | UserNode(stmt: StmtAnnotation)

  /** Everything the build looks at: options->openmp, the dependences and
      statements of the SCoP, and the expression synthesis of the engine. */
  datatype Env = Env(openmp: bool, flow: Deps, falseDeps: Deps, stmts: seq<PetStmt>, synth: Synth)

  /** Every for node's schedule has the loop's own dimension. */
  predicate WellFormed(t: Tree)
  {
    match t
    case For(sched, _, body, _) => ValidSchedule(sched) && forall k :: 0 <= k < |body| ==> WellFormed(body[k])
    case Block(_, body, _) => forall k :: 0 <= k < |body| ==> WellFormed(body[k])
    case User(_, _) => true
  }

  /** The for node's annotation says "#pragma omp parallel for". */
  predicate IsMarked(info: Option<NodeInfo>)
  {
    info.Some? && info.value.isOpenmp
  }

  /** The AST built from "t" when the in_parallel_for flag is "inPar" on
      entry: None when some leaf could not be annotated. A for node is
      marked when the hooks are installed, the flag is clear and the loop
      is parallel; its body is built with the flag set when it is marked. */
  function Build(t: Tree, inPar: bool, env: Env): Option<AstNode>
    requires WellFormed(t)
    decreases t, 1
  {
    match t
    case For(sched, head, body, tail) =>
      var marked := env.openmp && !inPar && DimIsParallel(env.flow, env.falseDeps, sched);
      var info := if env.openmp then Some(NodeInfo(marked)) else None;
      (match BuildList(body, |body|, inPar || marked, env)
       case None => None
       case Some(kids) => Some(ForNode(info, head, kids, tail)))
    case Block(head, body, tail) =>
      (match BuildList(body, |body|, inPar, env)
       case None => None
       case Some(kids) => Some(BlockNode(head, kids, tail)))
    case User(call, leafSched) =>
      match Annotate(call, leafSched, env.stmts, env.synth)
      case None => None
      case Some(a) => Some(UserNode(a))
  }

  /** The first "n" children built in order, every one with the same flag. */
  function BuildList(ts: seq<Tree>, n: nat, inPar: bool, env: Env): Option<seq<AstNode>>
    requires n <= |ts| && forall k :: 0 <= k < |ts| ==> WellFormed(ts[k])
    decreases ts, 0, n
  {
    if n == 0 then Some([])
    else
      match BuildList(ts, n - 1, inPar, env)
      case None => None
      case Some(kids) =>
        (match Build(ts[n - 1], inPar, env)
         case None => None
         case Some(kid) => Some(kids + [kid]))
  }

  /** A built child list has one node per child, each built on its own. */
  lemma {:induction false} BuildListElements(ts: seq<Tree>, n: nat, inPar: bool, env: Env)
    requires n <= |ts| && forall k :: 0 <= k < |ts| ==> WellFormed(ts[k])
    requires BuildList(ts, n, inPar, env).Some?
    ensures |BuildList(ts, n, inPar, env).value| == n
    ensures forall k :: 0 <= k < n ==> Build(ts[k], inPar, env) == Some(BuildList(ts, n, inPar, env).value[k])
    decreases n
  {
    if n > 0 {
      BuildListElements(ts, n - 1, inPar, env);
    }
  }

  /** struct ast_build_userinfo: the dependences of the SCoP and the flag. */
  class BuildInfo {
    const flow: Deps
    const falseDeps: Deps
    var inParallelFor: bool

    /** print_scop's initialisation: in_parallel_for = 0. */
    constructor (flow: Deps, falseDeps: Deps)
      ensures this.flow == flow && this.falseDeps == falseDeps && !inParallelFor
    {
      this.flow := flow;
      this.falseDeps := falseDeps;
      inParallelFor := false;
    }

    /** mark_openmp_parallel: nothing happens inside a parallel loop;
        otherwise a parallel loop sets the flag and its annotation. */
    method MarkOpenmpParallel(sched: BuildSchedule, nodeInfo: NodeInfo) returns (marked: NodeInfo)
      requires ValidSchedule(sched)
      modifies this
      ensures var hit := !old(inParallelFor) && DimIsParallel(flow, falseDeps, sched);
        marked == (if hit then NodeInfo(true) else nodeInfo) && inParallelFor == (old(inParallelFor) || hit)
    {
      marked := nodeInfo;
      if inParallelFor {
        return;
      }
      var parallel := ScheduleDimIsParallel(flow, falseDeps, sched);
      if parallel {
        inParallelFor := true;
        marked := NodeInfo(true);
      }
    }

    /** ast_build_before_for: a fresh annotation with is_openmp = 0, then
        the marking. */
    method BeforeFor(sched: BuildSchedule) returns (nodeInfo: NodeInfo)
      requires ValidSchedule(sched)
      modifies this
      ensures var hit := !old(inParallelFor) && DimIsParallel(flow, falseDeps, sched);
        nodeInfo == NodeInfo(hit) && inParallelFor == (old(inParallelFor) || hit)
    {
      nodeInfo := NodeInfo(false);
      nodeInfo := MarkOpenmpParallel(sched, nodeInfo);
    }

    /** ast_build_after_for: leaving a marked loop clears the flag; leaving
        any other loop leaves it alone. */
    method AfterFor(info: Option<NodeInfo>)
      modifies this
      ensures inParallelFor == (if IsMarked(info) then false else old(inParallelFor))
    {
      if info.Some? && info.value.isOpenmp {
        inParallelFor := false;
      }
    }
  }

  /** isl_ast_build_ast_from_schedule with ppcg's hooks: the before-for hook
      runs before a loop's body is built and the after-for hook after it;
      the leaf hook runs at each leaf. A successful build leaves the flag as
      it found it. */
  method BuildAst(t: Tree, env: Env, info: BuildInfo) returns (r: Option<AstNode>)
    requires WellFormed(t) && SafelyFreed(env.stmts) && info.flow == env.flow && info.falseDeps == env.falseDeps
    modifies info
    ensures r == Build(t, old(info.inParallelFor), env)
    ensures r.Some? ==> info.inParallelFor == old(info.inParallelFor)
    decreases t, 1
  {
    match t
    case For(sched, head, body, tail) =>
      var nodeInfo: Option<NodeInfo> := None;
      if env.openmp {
        var created := info.BeforeFor(sched);
        nodeInfo := Some(created);
      }
      var kids := BuildChildren(body, env, info);
      if kids.None? {
        return None;
      }
      if env.openmp {
        info.AfterFor(nodeInfo);
      }
      r := Some(ForNode(nodeInfo, head, kids.value, tail));
    case Block(head, body, tail) =>
      var kids := BuildChildren(body, env, info);
      if kids.None? {
        return None;
      }
      r := Some(BlockNode(head, kids.value, tail));
    case User(call, leafSched) =>
      var a := AtEachDomain(call, leafSched, env.stmts, env.synth);
      if a.None? {
        return None;
      }
      r := Some(UserNode(a.value));
  }

  /** The engine builds the children of a node one after the other. */
  method BuildChildren(ts: seq<Tree>, env: Env, info: BuildInfo) returns (r: Option<seq<AstNode>>)
    requires (forall k :: 0 <= k < |ts| ==> WellFormed(ts[k])) && SafelyFreed(env.stmts)
    requires info.flow == env.flow && info.falseDeps == env.falseDeps
    modifies info
    ensures r == BuildList(ts, |ts|, old(info.inParallelFor), env)
    ensures r.Some? ==> info.inParallelFor == old(info.inParallelFor)
    decreases ts, 0
  {
    var kids: seq<AstNode> := [];
    for i := 0 to |ts|
      invariant info.inParallelFor == old(info.inParallelFor)
      invariant BuildList(ts, i, old(info.inParallelFor), env) == Some(kids)
    {
      var kid := BuildAst(ts[i], env, info);
      if kid.None? {
        BuildListStops(ts, i + 1, |ts|, old(info.inParallelFor), env);
        return None;
      }
      kids := kids + [kid.value];
    }
    r := Some(kids);
  }

  /** Once a child fails, the whole list fails. */
  lemma {:induction false} BuildListStops(ts: seq<Tree>, n: nat, m: nat, inPar: bool, env: Env)
    requires n <= m <= |ts| && forall k :: 0 <= k < |ts| ==> WellFormed(ts[k])
    requires BuildList(ts, n, inPar, env).None?
    ensures BuildList(ts, m, inPar, env).None?
    decreases m - n
  {
    if n < m {
      BuildListStops(ts, n, m - 1, inPar, env);
    }
  }

  // ---------------------------------------------------------------------
  // Marking along root-to-leaf paths

  /** The schedules of the loops met from the root of "t" down the child
      positions of "path", the root included; the walk ends where the path
      leaves the tree. */
  function LoopsAlong(t: Tree, path: seq<nat>): (r: seq<BuildSchedule>)
    requires WellFormed(t)
    ensures forall i :: 0 <= i < |r| ==> ValidSchedule(r[i])
    decreases path
  {
    match t
    case User(_, _) => []
    case For(sched, _, body, _) =>
      if path == [] || path[0] >= |body| then [sched] else [sched] + LoopsAlong(body[path[0]], path[1..])
    case Block(_, body, _) =>
      if path == [] || path[0] >= |body| then [] else LoopsAlong(body[path[0]], path[1..])
  }

  /** The annotations of the for nodes met from the root of "n" down "path". */
  function MarksAlong(n: AstNode, path: seq<nat>): seq<bool>
    decreases path
  {
    match n
    case UserNode(_) => []
    case ForNode(info, _, body, _) =>
      if path == [] || path[0] >= |body| then [IsMarked(info)] else [IsMarked(info)] + MarksAlong(body[path[0]], path[1..])
    case BlockNode(_, body, _) =>
      if path == [] || path[0] >= |body| then [] else MarksAlong(body[path[0]], path[1..])
  }

  /** Loop "i" of the list is the first parallel one. */
  predicate FirstParallel(loops: seq<BuildSchedule>, i: nat, env: Env)
    requires i < |loops| && forall j :: 0 <= j < |loops| ==> ValidSchedule(loops[j])
  {
    DimIsParallel(env.flow, env.falseDeps, loops[i]) &&
    forall j :: 0 <= j < i ==> !DimIsParallel(env.flow, env.falseDeps, loops[j])
  }

  /** The first parallel loop below a loop that is not parallel. */
  lemma FirstParallelShift(sched: BuildSchedule, rest: seq<BuildSchedule>, i: nat, env: Env)
    requires ValidSchedule(sched) && forall j :: 0 <= j < |rest| ==> ValidSchedule(rest[j])
    requires 0 < i <= |rest|
    ensures FirstParallel([sched] + rest, i, env) <==>
      !DimIsParallel(env.flow, env.falseDeps, sched) && FirstParallel(rest, i - 1, env)
  {
    var loops := [sched] + rest;
    assert loops[0] == sched && loops[i] == rest[i - 1];
    assert forall j :: 0 <= j < i - 1 ==> loops[j + 1] == rest[j];
  }

  /** One step down a path through a for node: if the marks below follow
      the outermost-parallel rule with the flag the node's body is built
      with, the marks from the node on follow it with the node's own flag. */
  lemma MarksStep(sched: BuildSchedule, rest: seq<BuildSchedule>, marks: seq<bool>, inPar: bool, env: Env)
    requires ValidSchedule(sched) && forall j :: 0 <= j < |rest| ==> ValidSchedule(rest[j])
    requires |marks| == |rest|
    requires var marked := env.openmp && !inPar && DimIsParallel(env.flow, env.falseDeps, sched);
      forall i :: 0 <= i < |rest| ==> (marks[i] <==> env.openmp && !(inPar || marked) && FirstParallel(rest, i, env))
    ensures var marked := env.openmp && !inPar && DimIsParallel(env.flow, env.falseDeps, sched);
      forall i :: 0 <= i < |rest| + 1 ==>
        (([marked] + marks)[i] <==> env.openmp && !inPar && FirstParallel([sched] + rest, i, env))
  {
    var marked := env.openmp && !inPar && DimIsParallel(env.flow, env.falseDeps, sched);
    forall i | 0 <= i < |rest| + 1
      ensures ([marked] + marks)[i] <==> env.openmp && !inPar && FirstParallel([sched] + rest, i, env)
    {
      if i > 0 {
        FirstParallelShift(sched, rest, i, env);
        assert ([marked] + marks)[i] == marks[i - 1];
      }
    }
  }

  /** On every path, a loop is marked exactly when OpenMP is enabled, the
      build did not start inside a parallel loop, and the loop is the
      outermost parallel loop of that path. */
  lemma {:induction false} OutermostParallelLoopIsMarked(t: Tree, inPar: bool, env: Env, path: seq<nat>)
    requires WellFormed(t) && Build(t, inPar, env).Some?
    ensures var loops := LoopsAlong(t, path);
      var marks := MarksAlong(Build(t, inPar, env).value, path);
      |marks| == |loops| &&
      forall i :: 0 <= i < |loops| ==> (marks[i] <==> env.openmp && !inPar && FirstParallel(loops, i, env))
    decreases path, 1
  {
    match t
    case User(_, _) =>
    case For(_, _, _, _) =>
      ForLoopIsMarkedIfOutermost(t, inPar, env, path);
    case Block(_, _, _) =>
      BlockPassesMarks(t, inPar, env, path);
  }

  /** The node built for a for loop: marked as the flag rule says, with
      each child built on the flag as the loop leaves it. */
  lemma BuiltForNode(t: Tree, inPar: bool, env: Env)
    requires t.For? && WellFormed(t) && Build(t, inPar, env).Some?
    ensures var n := Build(t, inPar, env).value;
      var marked := env.openmp && !inPar && DimIsParallel(env.flow, env.falseDeps, t.sched);
      n.ForNode? && IsMarked(n.info) == marked && |n.body| == |t.body| &&
      forall k :: 0 <= k < |t.body| ==> Build(t.body[k], inPar || marked, env) == Some(n.body[k])
  {
    var marked := env.openmp && !inPar && DimIsParallel(env.flow, env.falseDeps, t.sched);
    BuildListElements(t.body, |t.body|, inPar || marked, env);
  }

  /** OutermostParallelLoopIsMarked for a path starting at a for node. */
  lemma {:induction false} ForLoopIsMarkedIfOutermost(t: Tree, inPar: bool, env: Env, path: seq<nat>)
    requires t.For? && WellFormed(t) && Build(t, inPar, env).Some?
    ensures var loops := LoopsAlong(t, path);
      var marks := MarksAlong(Build(t, inPar, env).value, path);
      |marks| == |loops| &&
      forall i :: 0 <= i < |loops| ==> (marks[i] <==> env.openmp && !inPar && FirstParallel(loops, i, env))
    decreases path, 0
  {
    var n := Build(t, inPar, env).value;
    var sched := t.sched;
    var marked := env.openmp && !inPar && DimIsParallel(env.flow, env.falseDeps, sched);
    BuiltForNode(t, inPar, env);
    if path != [] && path[0] < |t.body| {
      var kid := t.body[path[0]];
      var kidLoops := LoopsAlong(kid, path[1..]);
      var kidMarks := MarksAlong(n.body[path[0]], path[1..]);
      assert |kidMarks| == |kidLoops| &&
        forall i :: 0 <= i < |kidLoops| ==> (kidMarks[i] <==> env.openmp && !(inPar || marked) && FirstParallel(kidLoops, i, env)) by {
        OutermostParallelLoopIsMarked(kid, inPar || marked, env, path[1..]);
      }
      assert LoopsAlong(t, path) == [sched] + kidLoops;
      assert MarksAlong(n, path) == [marked] + kidMarks;
      MarksStep(sched, kidLoops, kidMarks, inPar, env);
    } else {
      assert LoopsAlong(t, path) == [sched] && MarksAlong(n, path) == [marked];
      MarksStep(sched, [], [], inPar, env);
    }
  }

  /** OutermostParallelLoopIsMarked for a path starting at a block node,
      which passes its flag on unchanged. */
  lemma {:induction false} BlockPassesMarks(t: Tree, inPar: bool, env: Env, path: seq<nat>)
    requires t.Block? && WellFormed(t) && Build(t, inPar, env).Some?
    ensures var loops := LoopsAlong(t, path);
      var marks := MarksAlong(Build(t, inPar, env).value, path);
      |marks| == |loops| &&
      forall i :: 0 <= i < |loops| ==> (marks[i] <==> env.openmp && !inPar && FirstParallel(loops, i, env))
    decreases path, 0
  {
    var n := Build(t, inPar, env).value;
    BuildListElements(t.body, |t.body|, inPar, env);
    if path != [] && path[0] < |t.body| {
      var kid := t.body[path[0]];
      assert n.body[path[0]] == Build(kid, inPar, env).value;
      assert LoopsAlong(t, path) == LoopsAlong(kid, path[1..]);
      assert MarksAlong(n, path) == MarksAlong(n.body[path[0]], path[1..]);
      OutermostParallelLoopIsMarked(kid, inPar, env, path[1..]);
    } else {
      assert LoopsAlong(t, path) == [];
    }
  }

  /** Consequently at most one loop is marked on any path. */
  lemma AtMostOneMarkedPerPath(t: Tree, inPar: bool, env: Env, path: seq<nat>, i: nat, j: nat)
    requires WellFormed(t) && Build(t, inPar, env).Some?
    requires i < j < |MarksAlong(Build(t, inPar, env).value, path)|
    ensures !(MarksAlong(Build(t, inPar, env).value, path)[i] && MarksAlong(Build(t, inPar, env).value, path)[j])
  {
    OutermostParallelLoopIsMarked(t, inPar, env, path);
  }

  /** Without dependences every loop is parallel, so the outermost loop of
      each path, and only that one, is marked. */
  lemma NoDependencesMarkOutermostLoops(t: Tree, env: Env, path: seq<nat>)
    requires WellFormed(t) && env.openmp && env.flow == {} && env.falseDeps == {}
    requires Build(t, false, env).Some?
    ensures var marks := MarksAlong(Build(t, false, env).value, path);
      forall i :: 0 <= i < |marks| ==> (marks[i] <==> i == 0)
  {
    OutermostParallelLoopIsMarked(t, false, env, path);
    var loops := LoopsAlong(t, path);
    forall j | 0 <= j < |loops| ensures DimIsParallel(env.flow, env.falseDeps, loops[j]) {
      NoDependenceIsParallel(env.flow, env.falseDeps, loops[j]);
    }
    forall i | 0 < i < |loops| ensures !FirstParallel(loops, i, env) {
      assert DimIsParallel(env.flow, env.falseDeps, loops[0]);
    }
  }

  /** No for node carries an annotation. */
  predicate Unannotated(n: AstNode)
  {
    match n
    case ForNode(info, _, body, _) => info.None? && forall k :: 0 <= k < |body| ==> Unannotated(body[k])
    case BlockNode(_, body, _) => forall k :: 0 <= k < |body| ==> Unannotated(body[k])
    case UserNode(_) => true
  }

  /** With OpenMP disabled the hooks are not installed: no loop is annotated,
      so none is marked. */
  lemma {:induction false} NoOpenmpNoAnnotation(t: Tree, inPar: bool, env: Env)
    requires WellFormed(t) && !env.openmp && Build(t, inPar, env).Some?
    ensures Unannotated(Build(t, inPar, env).value)
    decreases t, 1
  {
    match t
    case User(_, _) =>
    case For(_, _, body, _) =>
      BuildListElements(body, |body|, inPar, env);
      forall k | 0 <= k < |body| ensures Unannotated(Build(t, inPar, env).value.body[k]) {
        NoOpenmpNoAnnotation(body[k], inPar, env);
      }
    case Block(_, body, _) =>
      BuildListElements(body, |body|, inPar, env);
      forall k | 0 <= k < |body| ensures Unannotated(Build(t, inPar, env).value.body[k]) {
        NoOpenmpNoAnnotation(body[k], inPar, env);
      }
  }

  /** Two parallel loops side by side, outside any parallel loop, are both
      marked: the after-for hook of the first clears the flag for the second. */
  lemma SiblingParallelLoopsAreBothMarked(first: Tree, second: Tree, env: Env)
    requires first.For? && second.For? && WellFormed(first) && WellFormed(second) && env.openmp
    requires DimIsParallel(env.flow, env.falseDeps, first.sched) && DimIsParallel(env.flow, env.falseDeps, second.sched)
    requires Build(Block([], [first, second], []), false, env).Some?
    ensures var n := Build(Block([], [first, second], []), false, env).value;
      |n.body| == 2 && n.body[0].ForNode? && IsMarked(n.body[0].info) && n.body[1].ForNode? && IsMarked(n.body[1].info)
  {
    var t := Block([], [first, second], []);
    BuildListElements(t.body, 2, false, env);
  }
}

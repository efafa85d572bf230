/** Statements of the SCoP and the transformed accesses attached to each
    leaf of the generated AST: the walk over access sub-expressions
    (foreach_access_expr), its two callbacks (inc_n_access, add_access), the
    statement lookup (find_stmt) and the leaf hook that ties them together
    (at_each_domain). */
module Statements {
  import opened Common
  import opened Parallelism

  /** A pet access relation: the name of the accessed array (None when the
      output tuple is unnamed), the number of its output dimensions, and the
      instances-to-elements relation. */
  datatype AccessRel = AccessRel(name: Option<string>, nOut: nat, rel: set<(Inst, seq<int>)>)

  /** A pet expression tree as far as the core needs it: a missing (NULL)
      expression, an access, or any other node with its argument list. An
      operator node carries the text the pet printer emits around its
      arguments: text[0], args[0], text[1], ..., args[n - 1], text[n]. */
  datatype Expr =
    | Null
    | Access(acc: AccessRel)
    | Op(text: seq<string>, args: seq<Expr>)

  /** A pet statement: the tuple identifier of its iteration domain, and its body. */
  datatype PetStmt = PetStmt(domainId: Id, body: Expr)

  /** An index expression list (isl_ast_expr_list) in the generated AST, one
      printed expression per output dimension of the access. */
  type IndexList = seq<string>

  /** isl_ast_build_expr_from_pw_aff applied to output dimension "i" of the
      piecewise affine form of a timestamps-to-elements relation. The isl
      algebra behind it is an input of the model. */
  type Synth = (set<(Timestamp, seq<int>)>, nat) -> string

  /** The annotation at_each_domain attaches to a leaf: the original
      statement and its transformed accesses (struct ppcg_stmt once filled). */
  datatype StmtAnnotation = StmtAnnotation(stmt: PetStmt, access: seq<IndexList>)

  // ---------------------------------------------------------------------
  // The traversal

  /** What foreach_access_expr achieves: whether it returned 0, and the
      access expressions handed to the callback, in calling order. */
  datatype Visit = Visit(ok: bool, visited: seq<AccessRel>)

  /** foreach_access_expr: a NULL expression fails; an access is handed to
      the callback and not descended into; other nodes walk their arguments
      in order and stop at the first failure. */
  function Walk(e: Expr): Visit
    decreases e, 1
  {
    match e
    case Null => Visit(false, [])
    case Access(acc) => Visit(true, [acc])
    case Op(_, args) => WalkArgs(args, |args|)
  }

  /** The walk over the first "n" arguments. */
  function WalkArgs(args: seq<Expr>, n: nat): Visit
    requires n <= |args|
    decreases args, 0, n
  {
    if n == 0 then Visit(true, [])
    else
      var v := WalkArgs(args, n - 1);
      if !v.ok then v
      else
        var w := Walk(args[n - 1]);
        Visit(w.ok, v.visited + w.visited)
  }

  /** Reference definition: every access sub-expression, in left-to-right
      order, ignoring missing sub-expressions. */
  function AllAccesses(e: Expr): seq<AccessRel>
    decreases e, 1
  {
    match e
    case Null => []
    case Access(acc) => [acc]
    case Op(_, args) => AccessesOfArgs(args, |args|)
  }

  /** The accesses of the first "n" arguments. */
  function AccessesOfArgs(args: seq<Expr>, n: nat): seq<AccessRel>
    requires n <= |args|
    decreases args, 0, n
  {
    if n == 0 then [] else AccessesOfArgs(args, n - 1) + AllAccesses(args[n - 1])
  }

  /** Some sub-expression that the walk descends into is missing. */
  predicate HasNull(e: Expr)
    decreases e, 1
  {
    match e
    case Null => true
    case Access(_) => false
    case Op(_, args) => NullInArgs(args, |args|)
  }

  /** One of the first "n" arguments holds a missing sub-expression. */
  predicate NullInArgs(args: seq<Expr>, n: nat)
    requires n <= |args|
    decreases args, 0, n
  {
    n > 0 && (NullInArgs(args, n - 1) || HasNull(args[n - 1]))
  }

  /** The walk succeeds exactly when no sub-expression is missing, and then
      it visits every access in order; whether or not it succeeds, the
      accesses it visited are the leading ones. */
  lemma {:induction false} WalkVisitsAllAccesses(e: Expr)
    ensures Walk(e).ok <==> !HasNull(e)
    ensures Walk(e).ok ==> Walk(e).visited == AllAccesses(e)
    ensures Walk(e).visited <= AllAccesses(e)
    decreases e, 1
  {
    match e
    case Null =>
    case Access(_) =>
    case Op(_, args) => WalkArgsVisitsAllAccesses(args, |args|);
  }

  /** WalkVisitsAllAccesses for the first "n" arguments. */
  lemma {:induction false} WalkArgsVisitsAllAccesses(args: seq<Expr>, n: nat)
    requires n <= |args|
    ensures WalkArgs(args, n).ok <==> !NullInArgs(args, n)
    ensures WalkArgs(args, n).ok ==> WalkArgs(args, n).visited == AccessesOfArgs(args, n)
    ensures WalkArgs(args, n).visited <= AccessesOfArgs(args, n)
    decreases args, 0, n
  {
    if n > 0 {
      WalkArgsVisitsAllAccesses(args, n - 1);
      var v := WalkArgs(args, n - 1);
      if v.ok {
        WalkVisitsAllAccesses(args[n - 1]);
        var w := Walk(args[n - 1]);
        assert v.visited + w.visited <= AccessesOfArgs(args, n - 1) + AllAccesses(args[n - 1]) by {
          PrefixConcat(v.visited, w.visited, AllAccesses(args[n - 1]));
        }
      } else {
        PrefixExtend(v.visited, AccessesOfArgs(args, n - 1), AllAccesses(args[n - 1]));
      }
    }
  }

  /** Appending a prefix of "c" to "a" gives a prefix of "a + c". */
  lemma PrefixConcat<T>(a: seq<T>, b: seq<T>, c: seq<T>)
    requires b <= c
    ensures a + b <= a + c
  {
    assert (a + c)[..|a + b|] == a + b;
  }

  /** A prefix of "b" is a prefix of "b + c". */
  lemma PrefixExtend<T>(a: seq<T>, b: seq<T>, c: seq<T>)
    requires a <= b
    ensures a <= b + c
  {
    assert (b + c)[..|a|] == a;
  }

  // ---------------------------------------------------------------------
  // Re-indexing an access

  /** The index list add_access builds for an access: the access relation
      composed after the reversed leaf schedule (AST iterators to statement
      instances), synthesised dimension by dimension. */
  function ReIndex(toInstances: set<(Timestamp, Inst)>, acc: AccessRel, synth: Synth): (r: IndexList)
    ensures |r| == acc.nOut
  {
    seq(acc.nOut, i requires 0 <= i => synth(ApplyRange(toInstances, acc.rel), i))
  }

  /** The index lists of a sequence of accesses. */
  function ReIndexAll(toInstances: set<(Timestamp, Inst)>, accs: seq<AccessRel>, synth: Synth): (r: seq<IndexList>)
    ensures |r| == |accs|
    ensures forall k :: 0 <= k < |accs| ==> r[k] == ReIndex(toInstances, accs[k], synth)
  {
    seq(|accs|, k requires 0 <= k < |accs| => ReIndex(toInstances, accs[k], synth))
  }

  /** Re-indexing distributes over concatenation. */
  lemma ReIndexAllConcat(toInstances: set<(Timestamp, Inst)>, a: seq<AccessRel>, b: seq<AccessRel>, synth: Synth)
    ensures ReIndexAll(toInstances, a + b, synth) == ReIndexAll(toInstances, a, synth) + ReIndexAll(toInstances, b, synth)
  {
    var lhs := ReIndexAll(toInstances, a + b, synth);
    var rhs := ReIndexAll(toInstances, a, synth) + ReIndexAll(toInstances, b, synth);
    forall k | 0 <= k < |lhs| ensures lhs[k] == rhs[k] {
      if k >= |a| {
        assert (a + b)[k] == b[k - |a|];
      }
    }
  }

  /** The callback foreach_access_expr is given: inc_n_access, or add_access
      with its ppcg_add_access_data (the reversed leaf schedule and the
      expression synthesis of the current build). */
  datatype AccessFn =
    | IncNAccess
    | AddAccess(toInstances: set<(Timestamp, Inst)>, synth: Synth)

  /** The slots of "before" from "from" on overwritten by "lists". */
  function Filled(before: seq<IndexList>, from: nat, lists: seq<IndexList>): (r: seq<IndexList>)
    requires from + |lists| <= |before|
    ensures |r| == |before|
  {
    before[..from] + lists + before[from + |lists|..]
  }

  /** Filling two runs one after the other fills their concatenation. */
  lemma FilledTwice(before: seq<IndexList>, from: nat, a: seq<IndexList>, b: seq<IndexList>)
    requires from + |a| + |b| <= |before|
    ensures Filled(Filled(before, from, a), from + |a|, b) == Filled(before, from, a + b)
  {
    var once := Filled(before, from, a);
    assert once[..from + |a|] == before[..from] + a;
    assert once[from + |a| + |b|..] == before[from + |a| + |b|..];
  }

  /** The array contents after a walk that handed "visited" to "fn",
      starting at slot "from". */
  function AfterWalk(fn: AccessFn, before: seq<IndexList>, from: nat, visited: seq<AccessRel>): seq<IndexList>
    requires fn.AddAccess? ==> from + |visited| <= |before|
  {
    match fn
    case IncNAccess => before
    case AddAccess(toInstances, synth) => Filled(before, from, ReIndexAll(toInstances, visited, synth))
  }

  /** Handing two runs of accesses to the callback one after the other is
      handing it their concatenation. */
  lemma AfterWalkConcat(fn: AccessFn, before: seq<IndexList>, from: nat, a: seq<AccessRel>, b: seq<AccessRel>)
    requires fn.AddAccess? ==> from + |a| + |b| <= |before|
    ensures fn.AddAccess? ==> from + |a + b| <= |before|
    ensures AfterWalk(fn, AfterWalk(fn, before, from, a), from + |a|, b) == AfterWalk(fn, before, from, a + b)
  {
    if fn.AddAccess? {
      FilledTwice(before, from, ReIndexAll(fn.toInstances, a, fn.synth), ReIndexAll(fn.toInstances, b, fn.synth));
      ReIndexAllConcat(fn.toInstances, a, b, fn.synth);
    }
  }

  /** struct ppcg_stmt while at_each_domain fills it. */
  class PpcgStmt {
    var stmt: PetStmt
    var nAccess: nat
    var access: array<IndexList>

    /** isl_calloc_type followed by the assignment of the statement found. */
    constructor (stmt: PetStmt)
      ensures this.stmt == stmt && nAccess == 0 && access.Length == 0 && fresh(access)
    {
      this.stmt := stmt;
      nAccess := 0;
      access := new IndexList[0];
    }

    /** The callback on one access expression. inc_n_access only counts;
        add_access stores the re-indexed access in the next slot. Both
        return 0. */
    method CallAccessFn(fn: AccessFn, acc: AccessRel) returns (rc: int)
      requires fn.AddAccess? ==> nAccess < access.Length
      modifies this, access
      ensures rc == 0
      ensures stmt == old(stmt) && access == old(access)
      ensures nAccess == old(nAccess) + 1
      ensures access[..] == AfterWalk(fn, old(access[..]), old(nAccess), [acc])
    {
      rc := 0;
      match fn
      case IncNAccess =>
        nAccess := nAccess + 1;
      case AddAccess(toInstances, synth) =>
        var index := BuildIndexList(toInstances, acc, synth);
        ghost var before := access[..];
        access[nAccess] := index;
        assert access[..] == Filled(before, nAccess, ReIndexAll(toInstances, [acc], synth));
        nAccess := nAccess + 1;
    }

    /** foreach_access_expr with one of the two callbacks: the state after
        the walk is that of handing every visited access to the callback. */
    method ForEachAccessExpr(e: Expr, fn: AccessFn) returns (rc: int)
      requires fn.AddAccess? ==> nAccess + |Walk(e).visited| <= access.Length
      modifies this, access
      ensures rc == (if Walk(e).ok then 0 else -1)
      ensures stmt == old(stmt) && access == old(access)
      ensures nAccess == old(nAccess) + |Walk(e).visited|
      ensures access[..] == AfterWalk(fn, old(access[..]), old(nAccess), Walk(e).visited)
      decreases e, 1
    {
      match e
      case Null =>
        return -1;
      case Access(acc) =>
        rc := CallAccessFn(fn, acc);
      case Op(_, args) =>
        rc := ForEachArg(args, fn);
    }

    /** The loop of foreach_access_expr over the arguments of a node. */
    method ForEachArg(args: seq<Expr>, fn: AccessFn) returns (rc: int)
      requires fn.AddAccess? ==> nAccess + |WalkArgs(args, |args|).visited| <= access.Length
      modifies this, access
      ensures rc == (if WalkArgs(args, |args|).ok then 0 else -1)
      ensures stmt == old(stmt) && access == old(access)
      ensures nAccess == old(nAccess) + |WalkArgs(args, |args|).visited|
      ensures access[..] == AfterWalk(fn, old(access[..]), old(nAccess), WalkArgs(args, |args|).visited)
      decreases args, 0
    {
      ghost var before := access[..];
      ghost var from := nAccess;
      ghost var visited: seq<AccessRel> := [];
      for i := 0 to |args|
        invariant WalkArgs(args, i) == Visit(true, visited)
        invariant |visited| <= |WalkArgs(args, |args|).visited|
        invariant stmt == old(stmt) && access == old(access)
        invariant nAccess == from + |visited|
        invariant access[..] == AfterWalk(fn, before, from, visited)
      {
        WalkArgsGrows(args, i + 1, |args|);
        ghost var step := Walk(args[i]).visited;
        WalkArgsStep(args, i);
        rc := ForEachAccessExpr(args[i], fn);
        AfterWalkConcat(fn, before, from, visited, step);
        visited := visited + step;
        if rc < 0 {
          WalkArgsStops(args, i + 1, |args|);
          return -1;
        }
      }
      rc := 0;
    }

    /** The loop of add_access over the output dimensions of the access. */
    static method BuildIndexList(toInstances: set<(Timestamp, Inst)>, acc: AccessRel, synth: Synth) returns (index: IndexList)
      ensures index == ReIndex(toInstances, acc, synth)
    {
      var composed := ApplyRange(toInstances, acc.rel);
      index := [];
      for i := 0 to acc.nOut
        invariant index == seq(i, j requires 0 <= j => synth(composed, j))
      {
        index := index + [synth(composed, i)];
      }
    }
  }

  /** One more argument after a successful walk over the first "i". */
  lemma WalkArgsStep(args: seq<Expr>, i: nat)
    requires i < |args| && WalkArgs(args, i).ok
    ensures WalkArgs(args, i + 1) == Visit(Walk(args[i]).ok, WalkArgs(args, i).visited + Walk(args[i]).visited)
  {
  }

  /** The walk over more arguments visits at least as many accesses. */
  lemma {:induction false} WalkArgsGrows(args: seq<Expr>, n: nat, m: nat)
    requires n <= m <= |args|
    ensures WalkArgs(args, n).visited <= WalkArgs(args, m).visited
    decreases m - n
  {
    if n < m {
      WalkArgsGrows(args, n, m - 1);
      var v := WalkArgs(args, m - 1);
      if v.ok {
        PrefixExtend(WalkArgs(args, n).visited, v.visited, Walk(args[m - 1]).visited);
      }
    }
  }

  /** Once an argument fails, the walk over more arguments fails with the
      same visited accesses. */
  lemma {:induction false} WalkArgsStops(args: seq<Expr>, n: nat, m: nat)
    requires n <= m <= |args| && !WalkArgs(args, n).ok
    ensures WalkArgs(args, m) == WalkArgs(args, n)
    decreases m - n
  {
    if n < m {
      WalkArgsStops(args, n, m - 1);
    }
  }

  // ---------------------------------------------------------------------
  // Statement lookup

  /** The position of the first statement at or after "i" whose domain has
      tuple identifier "id". */
  function FirstIndexFrom(stmts: seq<PetStmt>, id: Id, i: nat): (r: Option<nat>)
    requires i <= |stmts|
    ensures r.Some? ==> i <= r.value < |stmts| && stmts[r.value].domainId == id
    ensures r.Some? ==> forall j :: i <= j < r.value ==> stmts[j].domainId != id
    ensures r.None? <==> forall j :: i <= j < |stmts| ==> stmts[j].domainId != id
    decreases |stmts| - i
  {
    if i == |stmts| then None
    else if stmts[i].domainId == id then Some(i)
    else FirstIndexFrom(stmts, id, i + 1)
  }

  /** The statement find_stmt returns: the first one with the identifier,
      or none (where the source reports "statement not found" and returns NULL). */
  function StmtWithId(stmts: seq<PetStmt>, id: Id): Option<PetStmt>
  {
    match FirstIndexFrom(stmts, id, 0)
    case None => None
    case Some(k) => Some(stmts[k])
  }

  /** StmtWithId finds a statement exactly when one has the identifier, and
      then the first such one. */
  lemma StmtWithIdIsFirst(stmts: seq<PetStmt>, id: Id)
    ensures StmtWithId(stmts, id).None? <==> forall j :: 0 <= j < |stmts| ==> stmts[j].domainId != id
    ensures StmtWithId(stmts, id).Some? ==>
      exists k :: 0 <= k < |stmts| && StmtWithId(stmts, id) == Some(stmts[k]) && stmts[k].domainId == id &&
        forall j :: 0 <= j < k ==> stmts[j].domainId != id
  {
    var r := FirstIndexFrom(stmts, id, 0);
    if r.Some? {
      var k := r.value;
      assert StmtWithId(stmts, id) == Some(stmts[k]);
    }
  }

  /** find_stmt as written: a linear search comparing tuple identifiers. */
  method FindStmt(stmts: seq<PetStmt>, id: Id) returns (r: Option<PetStmt>)
    ensures r == StmtWithId(stmts, id)
  {
    for i := 0 to |stmts|
      invariant FirstIndexFrom(stmts, id, i) == FirstIndexFrom(stmts, id, 0)
    {
      if stmts[i].domainId == id {
        return Some(stmts[i]);
      }
    }
    return None;
  }

  // ---------------------------------------------------------------------
  // The leaf hook

  /** What at_each_domain attaches to the leaf that calls statement "call"
      under the leaf schedule "leafSched" (statement instances to AST
      iterators): nothing when the statement is not found or its body
      cannot be walked (the node is freed), otherwise the statement with
      the re-indexed accesses in traversal order. */
  function Annotate(call: Id, leafSched: ScheduleMap, stmts: seq<PetStmt>, synth: Synth): Option<StmtAnnotation>
  {
    match StmtWithId(stmts, call)
    case None => None
    case Some(st) =>
      var v := Walk(st.body);
      if !v.ok then None
      else Some(StmtAnnotation(st, ReIndexAll(Reverse(leafSched), v.visited, synth)))
  }

  /** Freeing after a failed counting walk is safe: ppcg_stmt_free reads the
      first n_access entries of the access array, which is not allocated yet,
      so the walk must have counted nothing before it failed. */
  predicate FreeIsSafe(body: Expr)
  {
    Walk(body).ok || Walk(body).visited == []
  }

  /** Every statement of the SCoP can be freed after a failed counting walk. */
  predicate SafelyFreed(stmts: seq<PetStmt>)
  {
    forall k :: 0 <= k < |stmts| ==> FreeIsSafe(stmts[k].body)
  }

  /** at_each_domain as written: find the statement, count its accesses,
      allocate the array, reverse the leaf schedule, and fill the array in a
      second walk. A counting walk that fails after visiting an access makes
      the error path crash, so that case is excluded. */
  method AtEachDomain(call: Id, leafSched: ScheduleMap, stmts: seq<PetStmt>, synth: Synth) returns (r: Option<StmtAnnotation>)
    requires SafelyFreed(stmts)
    ensures r == Annotate(call, leafSched, stmts, synth)
  {
    var found := FindStmt(stmts, call);
    if found.None? {
      return None;
    }
    var ps := new PpcgStmt(found.value);
    ps.nAccess := 0;
    var rc := ps.ForEachAccessExpr(ps.stmt.body, IncNAccess);
    if rc < 0 {
      // ppcg_stmt_free then reads no entry of the unallocated array.
      assert ps.nAccess == 0;
      return None;
    }
    ps.access := new IndexList[ps.nAccess](_ => []);
    var toInstances := Reverse(leafSched);
    ps.nAccess := 0;
    rc := ps.ForEachAccessExpr(ps.stmt.body, AddAccess(toInstances, synth));
    if rc < 0 {
      // The second walk covers the same expression as the counting walk.
      assert false;
    }
    assert ps.access[..] == ReIndexAll(toInstances, Walk(ps.stmt.body).visited, synth);
    r := Some(StmtAnnotation(ps.stmt, ps.access[..]));
  }

  /** The annotation exists exactly when the statement is found and its body
      has no missing sub-expression; it then holds one index list per access
      of the body, the k-th one being the re-indexed k-th access. */
  lemma AnnotationPairsAccesses(call: Id, leafSched: ScheduleMap, stmts: seq<PetStmt>, synth: Synth)
    ensures Annotate(call, leafSched, stmts, synth).Some? <==>
      StmtWithId(stmts, call).Some? && !HasNull(StmtWithId(stmts, call).value.body)
    ensures Annotate(call, leafSched, stmts, synth).Some? ==>
      var a := Annotate(call, leafSched, stmts, synth).value;
      var accs := AllAccesses(a.stmt.body);
      a.stmt == StmtWithId(stmts, call).value && |a.access| == |accs| &&
      forall k :: 0 <= k < |accs| ==> a.access[k] == ReIndex(Reverse(leafSched), accs[k], synth)
  {
    if StmtWithId(stmts, call).Some? {
      WalkVisitsAllAccesses(StmtWithId(stmts, call).value.body);
    }
  }
}

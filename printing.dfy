/** Printing the generated AST with ppcg's callbacks: print_user prints a
    statement line through the pet printer, whose access callback
    (print_access_expr) prints the next transformed access (print_access);
    print_for puts "#pragma omp parallel for" before the loops marked
    during the build. The isl printer is a sequence of finished lines and
    the line being written. */
module Printing {
  import opened Common
  import opened Statements
  import opened Parallelism
  import opened Ast

  /** The line print_for_with_openmp prints before a marked loop. */
  const Pragma: string := "#pragma omp parallel for"

  /** An isl_printer to a file: the lines written so far and the line
      being written. Indentation is not modelled. */
  class Printer {
    var lines: seq<string>
    var line: string

    constructor ()
      ensures lines == [] && line == []
    {
      lines := [];
      line := [];
    }

    /** isl_printer_start_line. */
    method StartLine()
      requires line == []
      modifies this
      ensures lines == old(lines) && line == []
    {
      line := [];
    }

    /** isl_printer_print_str. */
    method PrintStr(s: string)
      modifies this
      ensures lines == old(lines) && line == old(line) + s
    {
      line := line + s;
    }

    /** isl_printer_end_line. */
    method EndLine()
      modifies this
      ensures lines == old(lines) + [old(line)] && line == []
    {
      lines := lines + [line];
      line := [];
    }

    /** Whole lines printed by code outside this model (the engine's own
        loop text, print.c's declarations, the block braces). */
    method PrintLines(ls: seq<string>)
      modifies this
      ensures lines == old(lines) + ls && line == old(line)
    {
      lines := lines + ls;
    }
  }

  // ---------------------------------------------------------------------
  // One access

  /** The subscripts of a named access: "[e]" per index expression, in order. */
  function Subscripts(index: IndexList): string
  {
    if |index| == 0 then "" else Subscripts(index[..|index| - 1]) + "[" + index[|index| - 1] + "]"
  }

  /** The text print_access prints: an unnamed access is taken to be a
      plain expression and prints its first index in parentheses; a named
      one prints its name and its subscripts. */
  function AccessText(acc: AccessRel, index: IndexList): string
    requires acc.name.None? ==> |index| >= 1
  {
    match acc.name
    case None => "(" + index[0] + ")"
    case Some(name) => name + Subscripts(index)
  }

  /** Reading subscripts back: the last "[" opens the last subscript, which
      runs to the final "]". */
  function ParseSubscripts(s: string): Option<IndexList>
    decreases |s|
  {
    if |s| == 0 then Some([])
    else if s[|s| - 1] != ']' then None
    else
      match LastIndexOf(s, '[')
      case None => None
      case Some(k) =>
        match ParseSubscripts(s[..k])
        case None => None
        case Some(init) => Some(init + [s[k + 1..|s| - 1]])
  }

  /** Reading back one subscript appended to a text: the text is read as
      before, and the index expression comes after it. */
  lemma ParseLastSubscript(front: string, e: string)
    requires '[' !in e
    ensures ParseSubscripts(front + "[" + e + "]") ==
      if ParseSubscripts(front).Some? then Some(ParseSubscripts(front).value + [e]) else None
  {
    var last := "[" + e + "]";
    var s := front + "[" + e + "]";
    assert s == front + last;
    assert '[' !in last[1..] by {
      forall j | 0 <= j < |last[1..]| ensures last[1..][j] != '[' {
        if j < |e| {
          assert last[1..][j] == e[j];
        }
      }
    }
    LastIndexOfOnlyFirst(last, '[');
    LastIndexOfConcat(front, last, '[');
    assert s[|s| - 1] == ']';
    assert s[..|front|] == front;
    assert s[|front| + 1..|s| - 1] == e;
  }

  /** The subscripts of an access can be read back when no index expression
      contains "[": one "[e]" per index, in index order. */
  lemma {:induction false} SubscriptsRoundTrip(index: IndexList)
    requires forall i :: 0 <= i < |index| ==> '[' !in index[i]
    ensures ParseSubscripts(Subscripts(index)) == Some(index)
    decreases |index|
  {
    if |index| > 0 {
      var init := index[..|index| - 1];
      var e := index[|index| - 1];
      var front := Subscripts(init);
      assert Subscripts(index) == front + "[" + e + "]";
      assert ParseSubscripts(front) == Some(init) by {
        assert forall i :: 0 <= i < |init| ==> init[i] == index[i];
        SubscriptsRoundTrip(init);
      }
      assert ParseSubscripts(front + "[" + e + "]") == Some(init + [e]) by {
        ParseLastSubscript(front, e);
      }
      assert init + [e] == index;
    }
  }

  /** print_access as written. */
  method PrintAccess(p: Printer, acc: AccessRel, index: IndexList)
    requires acc.name.None? ==> |index| >= 1
    modifies p
    ensures p.lines == old(p.lines) && p.line == old(p.line) + AccessText(acc, index)
  {
    var nIndex := |index|;
    if acc.name.None? {
      p.PrintStr("(");
      p.PrintStr(index[0]);
      p.PrintStr(")");
      return;
    }
    var name := acc.name.value;
    p.PrintStr(name);
    for i := 0 to nIndex
      invariant p.lines == old(p.lines) && p.line == old(p.line) + name + Subscripts(index[..i])
    {
      p.PrintStr("[");
      p.PrintStr(index[i]);
      p.PrintStr("]");
      assert index[..i + 1][..i] == index[..i];
    }
    assert index[..nIndex] == index;
  }

  /** The cursor print_user hands to the pet printer: the statement's
      transformed accesses and the position of the next one. */
  class AccessCursor {
    const lists: seq<IndexList>
    var pos: nat

    constructor (lists: seq<IndexList>)
      ensures this.lists == lists && pos == 0
    {
      this.lists := lists;
      pos := 0;
    }

    /** print_access_expr: print the access with the current transformed
        index list and advance the cursor by one. */
    method PrintAccessExpr(p: Printer, acc: AccessRel)
      requires pos < |lists| && (acc.name.None? ==> |lists[pos]| >= 1)
      modifies this, p
      ensures pos == old(pos) + 1
      ensures p.lines == old(p.lines) && p.line == old(p.line) + AccessText(acc, lists[old(pos)])
    {
      PrintAccess(p, acc, lists[pos]);
      pos := pos + 1;
    }
  }

  // ---------------------------------------------------------------------
  // A statement line

  /** The cursor starting at position "k" has a printable index list for
      every access of "e", and every operator has its text around its
      arguments. */
  predicate Fits(e: Expr, lists: seq<IndexList>, k: nat)
    decreases e, 1
  {
    match e
    case Null => false
    case Access(acc) => k < |lists| && (acc.name.None? ==> |lists[k]| >= 1)
    case Op(text, args) => |text| == |args| + 1 && FitsArgs(args, |args|, lists, k)
  }

  /** Fits for the first "n" arguments. */
  predicate FitsArgs(args: seq<Expr>, n: nat, lists: seq<IndexList>, k: nat)
    requires n <= |args|
    decreases args, 0, n
  {
    n == 0 || (FitsArgs(args, n - 1, lists, k) && Fits(args[n - 1], lists, k + |AccessesOfArgs(args, n - 1)|))
  }

  /** What the pet printer prints for "e" with the cursor at "k": the
      operator text around the arguments, and the j-th access of "e"
      through the callback with index list k + j. */
  function Render(e: Expr, lists: seq<IndexList>, k: nat): string
    requires Fits(e, lists, k)
    decreases e, 1
  {
    match e
    case Access(acc) => AccessText(acc, lists[k])
    case Op(text, args) => RenderArgs(text, args, |args|, lists, k)
  }

  /** Render for the first "n" arguments and the text before and between them. */
  function RenderArgs(text: seq<string>, args: seq<Expr>, n: nat, lists: seq<IndexList>, k: nat): string
    requires n <= |args| && |text| == |args| + 1 && FitsArgs(args, n, lists, k)
    decreases args, 0, n
  {
    if n == 0 then text[0]
    else RenderArgs(text, args, n - 1, lists, k) + Render(args[n - 1], lists, k + |AccessesOfArgs(args, n - 1)|) + text[n]
  }

  /** Fits for more arguments gives Fits for fewer. */
  lemma {:induction false} FitsArgsPrefix(args: seq<Expr>, n: nat, m: nat, lists: seq<IndexList>, k: nat)
    requires n <= m <= |args| && FitsArgs(args, m, lists, k)
    ensures FitsArgs(args, n, lists, k)
    decreases m - n
  {
    if n < m {
      FitsArgsPrefix(args, n, m - 1, lists, k);
    }
  }

  /** The pet printer with print_access_expr as access callback. */
  method PrintPetExpr(p: Printer, e: Expr, cur: AccessCursor)
    requires Fits(e, cur.lists, cur.pos)
    modifies p, cur
    ensures p.lines == old(p.lines) && p.line == old(p.line) + Render(e, cur.lists, old(cur.pos))
    ensures cur.pos == old(cur.pos) + |AllAccesses(e)|
    decreases e, 1
  {
    match e
    case Access(acc) =>
      cur.PrintAccessExpr(p, acc);
    case Op(text, args) =>
      PrintArgs(p, text, args, cur);
  }

  /** The pet printer on an operator node: the text before each argument,
      the argument, and the closing text. */
  method PrintArgs(p: Printer, text: seq<string>, args: seq<Expr>, cur: AccessCursor)
    requires |text| == |args| + 1 && FitsArgs(args, |args|, cur.lists, cur.pos)
    modifies p, cur
    ensures p.lines == old(p.lines) && p.line == old(p.line) + RenderArgs(text, args, |args|, cur.lists, old(cur.pos))
    ensures cur.pos == old(cur.pos) + |AccessesOfArgs(args, |args|)|
    decreases args, 0
  {
    ghost var start, first := p.line, cur.pos;
    p.PrintStr(text[0]);
    for i := 0 to |args|
      invariant p.lines == old(p.lines)
      invariant FitsArgs(args, i, cur.lists, first)
      invariant p.line == start + RenderArgs(text, args, i, cur.lists, first)
      invariant cur.pos == first + |AccessesOfArgs(args, i)|
    {
      FitsArgsPrefix(args, i + 1, |args|, cur.lists, first);
      ghost var done := RenderArgs(text, args, i, cur.lists, first);
      ghost var arg := Render(args[i], cur.lists, cur.pos);
      PrintPetExpr(p, args[i], cur);
      p.PrintStr(text[i + 1]);
      AppendAssoc(start, done, arg);
      AppendAssoc(start, done + arg, text[i + 1]);
    }
  }

  /** The line print_user prints for an annotated leaf. */
  function UserLine(a: StmtAnnotation): string
    requires Fits(a.stmt.body, a.access, 0)
  {
    Render(a.stmt.body, a.access, 0) + ";"
  }

  /** print_user as written: start a line, walk the statement body with a
      cursor at its first transformed access, end with ";". */
  method PrintUser(p: Printer, a: StmtAnnotation)
    requires Fits(a.stmt.body, a.access, 0) && p.line == []
    modifies p
    ensures p.lines == old(p.lines) + [UserLine(a)] && p.line == []
  {
    var cur := new AccessCursor(a.access);
    p.StartLine();
    PrintPetExpr(p, a.stmt.body, cur);
    assert p.line == Render(a.stmt.body, a.access, 0);
    p.PrintStr(";");
    p.EndLine();
  }

  // ---------------------------------------------------------------------
  // The statement line without the cursor

  /** A statement body the pet printer can print: no missing
      sub-expression, operator text around the arguments, and an index for
      every unnamed access. */
  predicate Printable(e: Expr)
  {
    match e
    case Null => false
    case Access(acc) => acc.name.Some? || acc.nOut >= 1
    case Op(text, args) => |text| == |args| + 1 && forall j :: 0 <= j < |args| ==> Printable(args[j])
  }

  /** Reference: every access printed directly with its own re-indexed list. */
  function Printed(e: Expr, toInstances: set<(Timestamp, Inst)>, synth: Synth): string
    requires Printable(e)
    decreases e, 1
  {
    match e
    case Access(acc) => AccessText(acc, ReIndex(toInstances, acc, synth))
    case Op(text, args) => PrintedArgs(text, args, |args|, toInstances, synth)
  }

  /** Printed for the first "n" arguments and the text around them. */
  function PrintedArgs(text: seq<string>, args: seq<Expr>, n: nat, toInstances: set<(Timestamp, Inst)>, synth: Synth): string
    requires n <= |args| && |text| == |args| + 1 && forall j :: 0 <= j < |args| ==> Printable(args[j])
    decreases args, 0, n
  {
    if n == 0 then text[0]
    else PrintedArgs(text, args, n - 1, toInstances, synth) + Printed(args[n - 1], toInstances, synth) + text[n]
  }

  /** The index lists from position "k" on are the re-indexed accesses. */
  predicate ListsFrom(lists: seq<IndexList>, k: nat, accs: seq<AccessRel>, toInstances: set<(Timestamp, Inst)>, synth: Synth)
  {
    k + |accs| <= |lists| && forall j :: 0 <= j < |accs| ==> lists[k + j] == ReIndex(toInstances, accs[j], synth)
  }

  /** The lists for a concatenation of accesses are the lists for the first
      part followed by those for the second. */
  lemma ListsFromSplit(lists: seq<IndexList>, k: nat, a: seq<AccessRel>, b: seq<AccessRel>,
                       toInstances: set<(Timestamp, Inst)>, synth: Synth)
    requires ListsFrom(lists, k, a + b, toInstances, synth)
    ensures ListsFrom(lists, k, a, toInstances, synth) && ListsFrom(lists, k + |a|, b, toInstances, synth)
  {
    forall j | 0 <= j < |a| ensures lists[k + j] == ReIndex(toInstances, a[j], synth) {
      assert (a + b)[j] == a[j];
    }
    forall j | 0 <= j < |b| ensures lists[k + |a| + j] == ReIndex(toInstances, b[j], synth) {
      assert (a + b)[|a| + j] == b[j];
    }
  }

  /** Walking the cursor in step with the pet printer pairs each access
      with its own transformed index list: the positional printing equals
      printing every access with its own re-indexing. */
  lemma {:induction false} CursorPairsEachAccess(e: Expr, lists: seq<IndexList>, k: nat, toInstances: set<(Timestamp, Inst)>, synth: Synth)
    requires Printable(e) && ListsFrom(lists, k, AllAccesses(e), toInstances, synth)
    ensures Fits(e, lists, k) && Render(e, lists, k) == Printed(e, toInstances, synth)
    decreases e, 1
  {
    match e
    case Access(acc) =>
      assert lists[k] == ReIndex(toInstances, AllAccesses(e)[0], synth);
    case Op(text, args) =>
      CursorPairsEachArg(text, args, |args|, lists, k, toInstances, synth);
  }

  /** CursorPairsEachAccess for the first "n" arguments. */
  lemma {:induction false} CursorPairsEachArg(text: seq<string>, args: seq<Expr>, n: nat, lists: seq<IndexList>, k: nat,
                                              toInstances: set<(Timestamp, Inst)>, synth: Synth)
    requires n <= |args| && |text| == |args| + 1 && forall j :: 0 <= j < |args| ==> Printable(args[j])
    requires ListsFrom(lists, k, AccessesOfArgs(args, n), toInstances, synth)
    ensures FitsArgs(args, n, lists, k)
    ensures RenderArgs(text, args, n, lists, k) == PrintedArgs(text, args, n, toInstances, synth)
    decreases args, 0, n
  {
    if n > 0 {
      var front := AccessesOfArgs(args, n - 1);
      var mine := AllAccesses(args[n - 1]);
      assert ListsFrom(lists, k, front, toInstances, synth) && ListsFrom(lists, k + |front|, mine, toInstances, synth) by {
        assert AccessesOfArgs(args, n) == front + mine;
        ListsFromSplit(lists, k, front, mine, toInstances, synth);
      }
      assert FitsArgs(args, n - 1, lists, k) &&
        RenderArgs(text, args, n - 1, lists, k) == PrintedArgs(text, args, n - 1, toInstances, synth) by {
        CursorPairsEachArg(text, args, n - 1, lists, k, toInstances, synth);
      }
      assert Fits(args[n - 1], lists, k + |front|) &&
        Render(args[n - 1], lists, k + |front|) == Printed(args[n - 1], toInstances, synth) by {
        CursorPairsEachAccess(args[n - 1], lists, k + |front|, toInstances, synth);
      }
    }
  }

  /** The line printed for the leaf at_each_domain annotated is the
      statement body with each access printed with its own re-indexing. */
  lemma UserLinePrintsEachAccessReindexed(call: Id, leafSched: ScheduleMap, stmts: seq<PetStmt>, synth: Synth)
    requires Annotate(call, leafSched, stmts, synth).Some?
    requires Printable(Annotate(call, leafSched, stmts, synth).value.stmt.body)
    ensures var a := Annotate(call, leafSched, stmts, synth).value;
      Fits(a.stmt.body, a.access, 0) &&
      UserLine(a) == Printed(a.stmt.body, Reverse(leafSched), synth) + ";"
  {
    var a := Annotate(call, leafSched, stmts, synth).value;
    AnnotationPairsAccesses(call, leafSched, stmts, synth);
    CursorPairsEachAccess(a.stmt.body, a.access, 0, Reverse(leafSched), synth);
  }

  /** A statement body whose shape the pet printer handles: operator text
      around the arguments and an index for every unnamed access. Missing
      sub-expressions are allowed; the walk rejects them before printing. */
  predicate Shaped(e: Expr)
  {
    match e
    case Null => true
    case Access(acc) => acc.name.Some? || acc.nOut >= 1
    case Op(text, args) => |text| == |args| + 1 && forall j :: 0 <= j < |args| ==> Shaped(args[j])
  }

  /** No missing sub-expression among the first "n" arguments means none in any of them. */
  lemma {:induction false} NoNullInEachArg(args: seq<Expr>, n: nat, j: nat)
    requires j < n <= |args| && !NullInArgs(args, n)
    ensures !HasNull(args[j])
    decreases n
  {
    if j < n - 1 {
      NoNullInEachArg(args, n - 1, j);
    }
  }

  /** A shaped body without missing sub-expressions is printable. */
  lemma {:induction false} ShapedCompleteIsPrintable(e: Expr)
    requires Shaped(e) && !HasNull(e)
    ensures Printable(e)
    decreases e
  {
    match e
    case Access(_) =>
    case Op(text, args) =>
      forall j | 0 <= j < |args| ensures Printable(args[j]) {
        NoNullInEachArg(args, |args|, j);
        ShapedCompleteIsPrintable(args[j]);
      }
  }

  // ---------------------------------------------------------------------
  // The tree

  /** Every leaf of the AST can be printed. */
  predicate PrintableAst(n: AstNode)
  {
    match n
    case ForNode(_, _, body, _) => forall k :: 0 <= k < |body| ==> PrintableAst(body[k])
    case BlockNode(_, body, _) => forall k :: 0 <= k < |body| ==> PrintableAst(body[k])
    case UserNode(a) => Fits(a.stmt.body, a.access, 0)
  }

  /** The lines isl_ast_node_print prints with ppcg's callbacks: a marked
      loop is preceded by the pragma line; the engine prints each node's
      own text around its children; leaves print their statement line. */
  function PrintTree(n: AstNode): seq<string>
    requires PrintableAst(n)
    decreases n, 1
  {
    match n
    case ForNode(info, head, body, tail) =>
      (if IsMarked(info) then [Pragma] else []) + head + PrintList(body, |body|) + tail
    case BlockNode(head, body, tail) => head + PrintList(body, |body|) + tail
    case UserNode(a) => [UserLine(a)]
  }

  /** The lines of the first "n" children. */
  function PrintList(ns: seq<AstNode>, n: nat): seq<string>
    requires n <= |ns| && forall k :: 0 <= k < |ns| ==> PrintableAst(ns[k])
    decreases ns, 0, n
  {
    if n == 0 then [] else PrintList(ns, n - 1) + PrintTree(ns[n - 1])
  }

  /** Every statement of the SCoP has a shaped body. */
  predicate ShapedStatements(stmts: seq<PetStmt>)
  {
    forall k :: 0 <= k < |stmts| ==> Shaped(stmts[k].body)
  }

  /** Every AST the build produces can be printed: each leaf carries one
      printable index list per access of its statement. */
  lemma {:induction false} BuiltTreeIsPrintable(t: Tree, inPar: bool, env: Env)
    requires WellFormed(t) && ShapedStatements(env.stmts) && Build(t, inPar, env).Some?
    ensures PrintableAst(Build(t, inPar, env).value)
    decreases t, 1
  {
    match t
    case For(sched, _, body, _) =>
      var marked := env.openmp && !inPar && DimIsParallel(env.flow, env.falseDeps, sched);
      BuiltListIsPrintable(body, inPar || marked, env);
    case Block(_, body, _) =>
      BuiltListIsPrintable(body, inPar, env);
    case User(call, leafSched) =>
      var k := FirstIndexFrom(env.stmts, call, 0).value;
      AnnotationPairsAccesses(call, leafSched, env.stmts, env.synth);
      ShapedCompleteIsPrintable(env.stmts[k].body);
      UserLinePrintsEachAccessReindexed(call, leafSched, env.stmts, env.synth);
  }

  /** BuiltTreeIsPrintable for every child of a built list. */
  lemma {:induction false} BuiltListIsPrintable(ts: seq<Tree>, inPar: bool, env: Env)
    requires (forall k :: 0 <= k < |ts| ==> WellFormed(ts[k])) && ShapedStatements(env.stmts)
    requires BuildList(ts, |ts|, inPar, env).Some?
    ensures var kids := BuildList(ts, |ts|, inPar, env).value;
      forall k :: 0 <= k < |kids| ==> PrintableAst(kids[k])
    decreases ts, 0
  {
    BuildListElements(ts, |ts|, inPar, env);
    forall k | 0 <= k < |BuildList(ts, |ts|, inPar, env).value| ensures PrintableAst(BuildList(ts, |ts|, inPar, env).value[k]) {
      BuiltTreeIsPrintable(ts[k], inPar, env);
    }
  }

  /** print_for: the pragma and the loop for a marked node, the loop alone
      for any other. */
  method PrintFor(p: Printer, n: AstNode)
    requires n.ForNode? && PrintableAst(n) && p.line == []
    modifies p
    ensures p.lines == old(p.lines) + PrintTree(n) && p.line == []
    decreases n, 2
  {
    var openmp := false;
    if n.info.Some? {
      if n.info.value.isOpenmp {
        openmp := true;
      }
    }
    if openmp {
      PrintForWithOpenmp(p, n);
    } else {
      ForPrint(p, n);
    }
  }

  /** print_for_with_openmp: the pragma line, then the loop. */
  method PrintForWithOpenmp(p: Printer, n: AstNode)
    requires n.ForNode? && PrintableAst(n) && p.line == []
    modifies p
    ensures p.lines == old(p.lines) + [Pragma] + PrintTree(n.(info := None)) && p.line == []
    decreases n, 1
  {
    p.StartLine();
    p.PrintStr(Pragma);
    assert p.line == Pragma;
    p.EndLine();
    ForPrint(p, n);
  }

  /** isl_ast_node_for_print: the engine's loop text around the body, whose
      nodes are printed through the callbacks. */
  method ForPrint(p: Printer, n: AstNode)
    requires n.ForNode? && PrintableAst(n) && p.line == []
    modifies p
    ensures p.lines == old(p.lines) + PrintTree(n.(info := None)) && p.line == []
    decreases n, 0
  {
    p.PrintLines(n.head);
    PrintChildren(p, n.body);
    p.PrintLines(n.tail);
  }

  /** isl_ast_node_print with print_for and print_user as callbacks. */
  method PrintNode(p: Printer, n: AstNode)
    requires PrintableAst(n) && p.line == []
    modifies p
    ensures p.lines == old(p.lines) + PrintTree(n) && p.line == []
    decreases n, 3
  {
    match n
    case ForNode(_, _, _, _) =>
      PrintFor(p, n);
    case BlockNode(head, body, tail) =>
      p.PrintLines(head);
      PrintChildren(p, body);
      p.PrintLines(tail);
    case UserNode(a) =>
      PrintUser(p, a);
  }

  /** The children of a node, in order. */
  method PrintChildren(p: Printer, ns: seq<AstNode>)
    requires (forall k :: 0 <= k < |ns| ==> PrintableAst(ns[k])) && p.line == []
    modifies p
    ensures p.lines == old(p.lines) + PrintList(ns, |ns|) && p.line == []
    decreases ns
  {
    for i := 0 to |ns|
      invariant p.lines == old(p.lines) + PrintList(ns, i) && p.line == []
    {
      PrintNode(p, ns[i]);
    }
  }

  // ---------------------------------------------------------------------
  // Pragma lines

  /** The number of lines equal to "l". */
  function Count(ls: seq<string>, l: string): nat
  {
    if |ls| == 0 then 0 else Count(ls[..|ls| - 1], l) + (if ls[|ls| - 1] == l then 1 else 0)
  }

  /** Counting distributes over concatenation. */
  lemma {:induction false} CountConcat(a: seq<string>, b: seq<string>, l: string)
    ensures Count(a + b, l) == Count(a, l) + Count(b, l)
    decreases |b|
  {
    if |b| > 0 {
      assert (a + b)[..|a + b| - 1] == a + b[..|b| - 1];
      assert (a + b)[|a + b| - 1] == b[|b| - 1];
      CountConcat(a, b[..|b| - 1], l);
    } else {
      assert a + b == a;
    }
  }

  /** The number of marked loops of a tree. */
  function MarkedLoops(n: AstNode): nat
    decreases n, 1
  {
    match n
    case ForNode(info, _, body, _) => (if IsMarked(info) then 1 else 0) + MarkedInList(body, |body|)
    case BlockNode(_, body, _) => MarkedInList(body, |body|)
    case UserNode(_) => 0
  }

  /** The marked loops of the first "n" children. */
  function MarkedInList(ns: seq<AstNode>, n: nat): nat
    requires n <= |ns|
    decreases ns, 0, n
  {
    if n == 0 then 0 else MarkedInList(ns, n - 1) + MarkedLoops(ns[n - 1])
  }

  /** None of the engine's own lines reads as the pragma. */
  predicate EngineTextClean(n: AstNode)
  {
    match n
    case ForNode(_, head, body, tail) =>
      Pragma !in head && Pragma !in tail && forall k :: 0 <= k < |body| ==> EngineTextClean(body[k])
    case BlockNode(head, body, tail) =>
      Pragma !in head && Pragma !in tail && forall k :: 0 <= k < |body| ==> EngineTextClean(body[k])
    case UserNode(_) => true
  }

  /** A line without the pragma counts nothing. */
  lemma {:induction false} CountAbsent(ls: seq<string>, l: string)
    requires l !in ls
    ensures Count(ls, l) == 0
    decreases |ls|
  {
    if |ls| > 0 {
      assert ls[..|ls| - 1] + [ls[|ls| - 1]] == ls;
      CountAbsent(ls[..|ls| - 1], l);
    }
  }

  /** Lines around a middle part that are not "l" do not change its count. */
  lemma CountAround(head: seq<string>, mid: seq<string>, tail: seq<string>, l: string)
    requires l !in head && l !in tail
    ensures Count(head + mid + tail, l) == Count(mid, l)
  {
    CountAbsent(head, l);
    CountAbsent(tail, l);
    CountConcat(head, mid, l);
    CountConcat(head + mid, tail, l);
  }

  /** A statement line is never the pragma: it ends with ";". */
  lemma UserLineIsNoPragma(a: StmtAnnotation)
    requires Fits(a.stmt.body, a.access, 0)
    ensures Count([UserLine(a)], Pragma) == 0
  {
    var line := UserLine(a);
    assert line[|line| - 1] == ';';
    assert Pragma[|Pragma| - 1] == 'r';
    var none: seq<string> := [];
    assert [line][..0] == none;
  }

  /** The pragma line before a loop counts once exactly when the loop is marked. */
  lemma PragmaCountOfLoop(info: Option<NodeInfo>, rest: seq<string>)
    ensures Count((if IsMarked(info) then [Pragma] else []) + rest, Pragma) == (if IsMarked(info) then 1 else 0) + Count(rest, Pragma)
  {
    var pre: seq<string> := if IsMarked(info) then [Pragma] else [];
    assert Count(pre, Pragma) == (if IsMarked(info) then 1 else 0) by {
      if IsMarked(info) {
        var none: seq<string> := [];
        assert pre[..0] == none;
      }
    }
    CountConcat(pre, rest, Pragma);
  }

  /** The printed tree holds exactly one pragma line per marked loop
      (statement lines end with ";", so they are never the pragma). */
  lemma {:induction false} PragmaLinePerMarkedLoop(n: AstNode)
    requires PrintableAst(n) && EngineTextClean(n)
    ensures Count(PrintTree(n), Pragma) == MarkedLoops(n)
    decreases n, 1
  {
    match n
    case ForNode(info, head, body, tail) =>
      PragmaLinesInList(body, |body|);
      var inner := head + PrintList(body, |body|) + tail;
      CountAround(head, PrintList(body, |body|), tail, Pragma);
      PragmaCountOfLoop(info, inner);
      assert PrintTree(n) == (if IsMarked(info) then [Pragma] else []) + inner;
    case BlockNode(head, body, tail) =>
      PragmaLinesInList(body, |body|);
      CountAround(head, PrintList(body, |body|), tail, Pragma);
    case UserNode(a) =>
      UserLineIsNoPragma(a);
  }

  /** PragmaLinePerMarkedLoop for the first "n" children. */
  lemma {:induction false} PragmaLinesInList(ns: seq<AstNode>, n: nat)
    requires n <= |ns| && forall k :: 0 <= k < |ns| ==> PrintableAst(ns[k]) && EngineTextClean(ns[k])
    ensures Count(PrintList(ns, n), Pragma) == MarkedInList(ns, n)
    decreases ns, 0, n
  {
    if n > 0 {
      PragmaLinesInList(ns, n - 1);
      PragmaLinePerMarkedLoop(ns[n - 1]);
      CountConcat(PrintList(ns, n - 1), PrintTree(ns[n - 1]), Pragma);
    }
  }

  /** An unannotated tree (OpenMP disabled) prints no pragma line. */
  lemma {:induction false} UnannotatedHasNoMarkedLoop(n: AstNode)
    requires Unannotated(n)
    ensures MarkedLoops(n) == 0
    decreases n, 1
  {
    match n
    case ForNode(_, _, body, _) => UnannotatedListHasNoMarkedLoop(body, |body|);
    case BlockNode(_, body, _) => UnannotatedListHasNoMarkedLoop(body, |body|);
    case UserNode(_) =>
  }

  /** UnannotatedHasNoMarkedLoop for the first "n" children. */
  lemma {:induction false} UnannotatedListHasNoMarkedLoop(ns: seq<AstNode>, n: nat)
    requires n <= |ns| && forall k :: 0 <= k < |ns| ==> Unannotated(ns[k])
    ensures MarkedInList(ns, n) == 0
    decreases ns, 0, n
  {
    if n > 0 {
      UnannotatedListHasNoMarkedLoop(ns, n - 1);
      UnannotatedHasNoMarkedLoop(ns[n - 1]);
    }
  }
}

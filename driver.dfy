/** The driver (generate_cpu and print_scop): the output file receives the
    text before the SCoP, a marker comment, the declarations of the exposed
    arrays, a block holding the hidden arrays' declarations when there are
    any, the macros and the generated code, the closing brace, and the text
    after the SCoP. The output file is a sequence of lines; the text copied
    from the input and the engine's output are inputs. */
module Driver {
  import opened Common
  import opened OutputFile
  import opened Parallelism
  import opened Statements
  import opened Ast
  import opened Printing

  /** A pet array as the driver sees it: its declaration line and flags. */
  datatype PetArray = PetArray(declaration: string, declared: bool, exposed: bool)

  /** The parts of a ppcg_scop the CPU backend uses. */
  datatype Scop = Scop(flow: Deps, falseDeps: Deps, stmts: seq<PetStmt>, arrays: seq<PetArray>)

  /** The part of ppcg_options the CPU backend reads. */
  datatype Options = Options(openmp: bool)

  /** The comment printed after the text copied before the SCoP. */
  const Marker: string := "/* ppcg generated CPU code */"

  /** The lines ppcg_start_block and ppcg_end_block print. */
  const BlockStart: string := "{"
  const BlockEnd: string := "}"

  /** An array declared inside the SCoP and not visible after it. */
  predicate Hidden(a: PetArray)
  {
    a.declared && !a.exposed
  }

  /** What any_hidden_declarations promises: a SCoP is given and one of its
      arrays is hidden. */
  predicate HasHidden(scop: Option<Scop>)
  {
    scop.Some? && exists i :: 0 <= i < |scop.value.arrays| && Hidden(scop.value.arrays[i])
  }

  /** any_hidden_declarations as written: 0 for no SCoP, else a scan of the arrays. */
  method AnyHiddenDeclarations(scop: Option<Scop>) returns (r: int)
    ensures r == (if HasHidden(scop) then 1 else 0)
  {
    if scop.None? {
      return 0;
    }
    var arrays := scop.value.arrays;
    for i := 0 to |arrays|
      invariant forall j :: 0 <= j < i ==> !Hidden(arrays[j])
    {
      if arrays[i].declared && !arrays[i].exposed {
        return 1;
      }
    }
    return 0;
  }

  /** The declarations ppcg_print_exposed_declarations ("exposed") or
      ppcg_print_hidden_declarations (not "exposed") prints: one line per
      declared array of the first "n" with that exposure, in array order. */
  function Declarations(arrays: seq<PetArray>, exposed: bool, n: nat): seq<string>
    requires n <= |arrays|
  {
    if n == 0 then []
    else
      Declarations(arrays, exposed, n - 1) +
      (if arrays[n - 1].declared && arrays[n - 1].exposed == exposed then [arrays[n - 1].declaration] else [])
  }

  /** Every declared array has its declaration printed in the list of its exposure. */
  lemma {:induction false} DeclaredArrayIsListed(arrays: seq<PetArray>, n: nat, i: nat)
    requires i < n <= |arrays| && arrays[i].declared
    ensures arrays[i].declaration in Declarations(arrays, arrays[i].exposed, n)
    decreases n
  {
    if i < n - 1 {
      DeclaredArrayIsListed(arrays, n - 1, i);
    }
  }

  /** Every printed declaration belongs to a declared array of that exposure. */
  lemma {:induction false} ListedIsDeclared(arrays: seq<PetArray>, exposed: bool, n: nat, d: string)
    requires n <= |arrays| && d in Declarations(arrays, exposed, n)
    ensures exists i :: 0 <= i < n && arrays[i].declared && arrays[i].exposed == exposed && arrays[i].declaration == d
    decreases n
  {
    var last: seq<string> := if arrays[n - 1].declared && arrays[n - 1].exposed == exposed then [arrays[n - 1].declaration] else [];
    if d in Declarations(arrays, exposed, n - 1) {
      ListedIsDeclared(arrays, exposed, n - 1, d);
    } else {
      assert d in last;
    }
  }

  /** The hidden list is not empty exactly when any_hidden_declarations
      reports hidden arrays, so a block is opened exactly when there is
      something to declare in it. */
  lemma HiddenListIffHasHidden(scop: Scop)
    ensures |Declarations(scop.arrays, false, |scop.arrays|)| > 0 <==> HasHidden(Some(scop))
  {
    var arrays := scop.arrays;
    if HasHidden(Some(scop)) {
      var i :| 0 <= i < |arrays| && Hidden(arrays[i]);
      DeclaredArrayIsListed(arrays, |arrays|, i);
    }
    if |Declarations(arrays, false, |arrays|)| > 0 {
      ListedIsDeclared(arrays, false, |arrays|, Declarations(arrays, false, |arrays|)[0]);
    }
  }

  /** The environment print_scop builds under. */
  function ScopEnv(scop: Scop, options: Options, synth: Synth): Env
  {
    Env(options.openmp, scop.flow, scop.falseDeps, scop.stmts, synth)
  }

  /** What print_scop prints: the macros and the tree, or nothing when the
      tree could not be built (isl_ast_node_print_macros then frees the
      printer). */
  function ScopText(tree: Tree, env: Env, macros: seq<string>): Option<seq<string>>
    requires WellFormed(tree) && ShapedStatements(env.stmts)
  {
    match Build(tree, false, env)
    case None => None
    case Some(n) =>
      BuiltTreeIsPrintable(tree, false, env);
      Some(macros + PrintTree(n))
  }

  /** print_scop as written: build with the leaf hook and, with OpenMP, the
      for hooks on a fresh flag; print the macros and the tree. Returns
      whether the printer survived. */
  method PrintScop(p: Printer, scop: Scop, options: Options, tree: Tree, macros: seq<string>, synth: Synth)
    returns (ok: bool)
    requires WellFormed(tree) && ShapedStatements(scop.stmts) && SafelyFreed(scop.stmts) && p.line == []
    modifies p
    ensures var text := ScopText(tree, ScopEnv(scop, options, synth), macros);
      ok == text.Some? && p.line == [] && p.lines == old(p.lines) + (if ok then text.value else [])
  {
    var env := ScopEnv(scop, options, synth);
    var info := new BuildInfo(scop.flow, scop.falseDeps);
    var built := BuildAst(tree, env, info);
    ghost var text := ScopText(tree, env, macros);
    assert built == Build(tree, false, env);
    if built.None? {
      assert text.None?;
      return false;
    }
    BuiltTreeIsPrintable(tree, false, env);
    assert text == Some(macros + PrintTree(built.value));
    ghost var start := p.lines;
    p.PrintLines(macros);
    PrintNode(p, built.value);
    assert p.lines == start + text.value;
    return true;
  }

  /** ppcg_start_block and the hidden declarations when the SCoP has hidden
      arrays, nothing otherwise. */
  function BlockOpening(scop: Scop): seq<string>
  {
    if HasHidden(Some(scop)) then [BlockStart] + Declarations(scop.arrays, false, |scop.arrays|) else []
  }

  /** What follows the opening: the printed tree and, when a block was
      opened, ppcg_end_block; nothing when the printer was lost. */
  function BlockRest(text: Option<seq<string>>, hidden: bool): seq<string>
  {
    if text.Some? then text.value + (if hidden then [BlockEnd] else []) else []
  }

  /** The lines generate_cpu writes for a SCoP. */
  function CpuOutput(scop: Scop, options: Options, before: seq<string>, tree: Tree, macros: seq<string>,
                     after: seq<string>, synth: Synth): seq<string>
    requires WellFormed(tree) && ShapedStatements(scop.stmts)
  {
    before + [Marker, ""] + Declarations(scop.arrays, true, |scop.arrays|) + BlockOpening(scop) +
    BlockRest(ScopText(tree, ScopEnv(scop, options, synth), macros), HasHidden(Some(scop))) + after
  }

  /** Appending the printed tree, then ppcg_end_block when a block is open
      and the printer survived, appends BlockRest. */
  lemma BlockRestAppended(start: seq<string>, printed: seq<string>, text: Option<seq<string>>, hidden: bool, final: seq<string>)
    requires printed == start + (if text.Some? then text.value else [])
    requires final == if text.Some? && hidden then printed + [BlockEnd] else printed
    ensures final == start + BlockRest(text, hidden)
  {
  }

  /** What generate_cpu writes into the opened output file, in order: the
      text before the SCoP, the marker, the exposed declarations, the block
      with the hidden declarations, the printed SCoP, the end of the block,
      and the text after the SCoP. */
  method WriteOutputFile(p: Printer, ps: Scop, options: Options, before: seq<string>, tree: Tree, macros: seq<string>,
                         after: seq<string>, synth: Synth)
    requires WellFormed(tree) && ShapedStatements(ps.stmts) && SafelyFreed(ps.stmts) && p.lines == [] && p.line == []
    modifies p
    ensures p.lines == CpuOutput(ps, options, before, tree, macros, after, synth)
  {
    p.PrintLines(before);
    p.PrintLines([Marker, ""]);
    p.PrintLines(Declarations(ps.arrays, true, |ps.arrays|));
    ghost var head := p.lines;
    assert head == before + [Marker, ""] + Declarations(ps.arrays, true, |ps.arrays|);
    var hidden := AnyHiddenDeclarations(Some(ps));
    if hidden != 0 {
      p.PrintLines([BlockStart]);
      p.PrintLines(Declarations(ps.arrays, false, |ps.arrays|));
    }
    ghost var withBlock := p.lines;
    assert withBlock == head + BlockOpening(ps);
    var ok := PrintScop(p, ps, options, tree, macros, synth);
    ghost var text := ScopText(tree, ScopEnv(ps, options, synth), macros);
    ghost var printed := p.lines;
    if ok && hidden != 0 {
      p.PrintLines([BlockEnd]);
    }
    BlockRestAppended(withBlock, printed, text, hidden != 0, p.lines);
    p.PrintLines(after);
  }

  /** generate_cpu as written: -1 and no output without a SCoP; otherwise
      the output file (named by get_output_file) receives the lines in
      order and the result is 0, also when the tree could not be built. */
  method GenerateCpu(scop: Option<Scop>, options: Options, input: string, output: Option<string>,
                     before: seq<string>, tree: Tree, macros: seq<string>, after: seq<string>, synth: Synth)
    returns (rc: int, path: string, out: seq<string>)
    requires scop.Some? ==> NameFits(input) && WellFormed(tree) && ShapedStatements(scop.value.stmts) && SafelyFreed(scop.value.stmts)
    ensures scop.None? ==> rc == -1 && out == []
    ensures scop.Some? ==>
      rc == 0 && path == OutputPath(input, output) && out == CpuOutput(scop.value, options, before, tree, macros, after, synth)
  {
    if scop.None? {
      return -1, "", [];
    }
    path := GetOutputFile(input, output);
    var p := new Printer();
    WriteOutputFile(p, scop.value, options, before, tree, macros, after, synth);
    out := p.lines;
    rc := 0;
  }

  // ---------------------------------------------------------------------
  // The emission order

  /** The hidden declarations and the tree sit in one block, opened after
      the exposed declarations and closed before the copied suffix; without
      hidden arrays the tree follows the exposed declarations directly. */
  lemma EmissionOrder(scop: Scop, options: Options, before: seq<string>, tree: Tree, macros: seq<string>,
                      after: seq<string>, synth: Synth)
    requires WellFormed(tree) && ShapedStatements(scop.stmts)
    requires ScopText(tree, ScopEnv(scop, options, synth), macros).Some?
    ensures var out := CpuOutput(scop, options, before, tree, macros, after, synth);
      var head := before + [Marker, ""] + Declarations(scop.arrays, true, |scop.arrays|);
      var text := ScopText(tree, ScopEnv(scop, options, synth), macros).value;
      var hiddenDecls := Declarations(scop.arrays, false, |scop.arrays|);
      if |hiddenDecls| > 0 then out == head + [BlockStart] + hiddenDecls + text + [BlockEnd] + after
      else out == head + text + after
  {
    HiddenListIffHasHidden(scop);
  }

  /** When the tree cannot be built, the output still has the prefix, the
      declarations and the suffix, and an opened block is never closed. */
  lemma FailedBuildLeavesBlockOpen(scop: Scop, options: Options, before: seq<string>, tree: Tree, macros: seq<string>,
                                   after: seq<string>, synth: Synth)
    requires WellFormed(tree) && ShapedStatements(scop.stmts) && SafelyFreed(scop.stmts)
    requires Build(tree, false, ScopEnv(scop, options, synth)).None?
    ensures var out := CpuOutput(scop, options, before, tree, macros, after, synth);
      var hiddenDecls := Declarations(scop.arrays, false, |scop.arrays|);
      out == before + [Marker, ""] + Declarations(scop.arrays, true, |scop.arrays|) +
        (if |hiddenDecls| > 0 then [BlockStart] + hiddenDecls else []) + after
  {
    HiddenListIffHasHidden(scop);
  }

  /** None of the copied or declared text reads as the pragma. */
  predicate TextClean(scop: Scop, before: seq<string>, macros: seq<string>, after: seq<string>)
  {
    Pragma !in before && Pragma !in macros && Pragma !in after &&
    forall i :: 0 <= i < |scop.arrays| ==> scop.arrays[i].declaration != Pragma
  }

  /** No declaration list holds the pragma when no declaration is the pragma. */
  lemma DeclarationsCountNoPragma(scop: Scop, exposed: bool)
    requires forall i :: 0 <= i < |scop.arrays| ==> scop.arrays[i].declaration != Pragma
    ensures Count(Declarations(scop.arrays, exposed, |scop.arrays|), Pragma) == 0
  {
    if Pragma in Declarations(scop.arrays, exposed, |scop.arrays|) {
      ListedIsDeclared(scop.arrays, exposed, |scop.arrays|, Pragma);
    }
    CountAbsent(Declarations(scop.arrays, exposed, |scop.arrays|), Pragma);
  }

  /** The pragma lines of the output are those of the printed tree: the
      text around it holds none. */
  lemma PragmaLinesAroundTree(scop: Scop, before: seq<string>, macros: seq<string>, treeLines: seq<string>, after: seq<string>)
    requires TextClean(scop, before, macros, after)
    ensures Count(before + [Marker, ""] + Declarations(scop.arrays, true, |scop.arrays|) + BlockOpening(scop) +
                  BlockRest(Some(macros + treeLines), HasHidden(Some(scop))) + after, Pragma) == Count(treeLines, Pragma)
  {
    var hidden := HasHidden(Some(scop));
    var head := before + [Marker, ""] + Declarations(scop.arrays, true, |scop.arrays|);
    var opening := BlockOpening(scop);
    var rest := BlockRest(Some(macros + treeLines), hidden);
    assert Count(head, Pragma) == 0 by {
      DeclarationsCountNoPragma(scop, true);
      CountAbsent(before, Pragma);
      CountAbsent([Marker, ""], Pragma);
      CountConcat(before, [Marker, ""], Pragma);
      CountConcat(before + [Marker, ""], Declarations(scop.arrays, true, |scop.arrays|), Pragma);
    }
    assert Count(opening, Pragma) == 0 by {
      if hidden {
        DeclarationsCountNoPragma(scop, false);
        CountAbsent([BlockStart], Pragma);
        CountConcat([BlockStart], Declarations(scop.arrays, false, |scop.arrays|), Pragma);
      } else {
        CountAbsent(opening, Pragma);
      }
    }
    assert Count(rest, Pragma) == Count(treeLines, Pragma) by {
      var close: seq<string> := if hidden then [BlockEnd] else [];
      assert rest == macros + treeLines + close;
      CountAbsent(macros, Pragma);
      CountAbsent(close, Pragma);
      CountConcat(macros, treeLines, Pragma);
      CountConcat(macros + treeLines, close, Pragma);
    }
    assert Count(after, Pragma) == 0 by {
      CountAbsent(after, Pragma);
    }
    CountConcat(head, opening, Pragma);
    CountConcat(head + opening, rest, Pragma);
    CountConcat(head + opening + rest, after, Pragma);
  }

  /** The output file holds exactly one pragma line per marked loop of the
      generated tree. */
  lemma PragmaLinesOfOutput(scop: Scop, options: Options, before: seq<string>, tree: Tree, macros: seq<string>,
                            after: seq<string>, synth: Synth)
    requires WellFormed(tree) && ShapedStatements(scop.stmts) && TextClean(scop, before, macros, after)
    requires Build(tree, false, ScopEnv(scop, options, synth)).Some?
    requires EngineTextClean(Build(tree, false, ScopEnv(scop, options, synth)).value)
    ensures Count(CpuOutput(scop, options, before, tree, macros, after, synth), Pragma) ==
      MarkedLoops(Build(tree, false, ScopEnv(scop, options, synth)).value)
  {
    var env := ScopEnv(scop, options, synth);
    var n := Build(tree, false, env).value;
    BuiltTreeIsPrintable(tree, false, env);
    assert ScopText(tree, env, macros) == Some(macros + PrintTree(n));
    PragmaLinePerMarkedLoop(n);
    PragmaLinesAroundTree(scop, before, macros, PrintTree(n), after);
  }

  /** Without OpenMP the output file holds no pragma line. */
  lemma NoOpenmpNoPragmaLine(scop: Scop, options: Options, before: seq<string>, tree: Tree, macros: seq<string>,
                             after: seq<string>, synth: Synth)
    requires WellFormed(tree) && ShapedStatements(scop.stmts) && TextClean(scop, before, macros, after)
    requires !options.openmp && Build(tree, false, ScopEnv(scop, options, synth)).Some?
    requires EngineTextClean(Build(tree, false, ScopEnv(scop, options, synth)).value)
    ensures Count(CpuOutput(scop, options, before, tree, macros, after, synth), Pragma) == 0
  {
    var env := ScopEnv(scop, options, synth);
    NoOpenmpNoAnnotation(tree, false, env);
    UnannotatedHasNoMarkedLoop(Build(tree, false, env).value);
    PragmaLinesOfOutput(scop, options, before, tree, macros, after, synth);
  }
}

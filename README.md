# ppcg CPU backend (cpu.c) in Dafny

This project models the CPU code generator of ppcg, the polyhedral
source-to-source compiler. For one SCoP (static control part) it does four
things:

- it derives the output file name from the input name;
- it builds a loop AST from the SCoP's schedule with hooks, which mark the
  outermost parallel loop of each path for OpenMP and annotate every leaf
  with its statement's accesses re-indexed to the AST iterators;
- it prints that AST, putting `#pragma omp parallel for` in front of marked
  loops and rewriting each statement with its transformed accesses;
- it wraps the result in the copied input text, a marker comment and the
  array declarations, opening a block when some arrays are hidden.

The isl and pet libraries are not modelled; this model stands in for them:

- Dependences and schedules are finite relations over statement instances
  and timestamp vectors.
- The isl AST engine's output is an input tree of loops, other nodes and
  leaves, with the engine's own text for each node.
- Turning a relation into index expressions (`isl_pw_multi_aff_from_map`
  and `isl_ast_build_expr_from_pw_aff`) is a function parameter, `synth`.
- The pet expression printer is modelled by its callback contract: operator
  text around the arguments, in order, with the access callback at every
  access.

Modules:

- `Common`: optional values, relation composition and reversal, and `strrchr`.
- `OutputFile`: `get_output_file`.
- `Parallelism`: `ast_schedule_dim_is_parallel`.
- `Statements`: pet expressions, `foreach_access_expr`, the `ppcg_stmt`
  class with `inc_n_access` and `add_access`, `find_stmt` and
  `at_each_domain`.
- `Ast`: the build with `mark_openmp_parallel` and the before/after-for
  hooks on a `BuildInfo` class holding `in_parallel_for`.
- `Printing`: an isl printer class, `print_access`, `print_access_expr`
  (a cursor class), `print_user`, `print_for` and `print_for_with_openmp`.
- `Driver`: `any_hidden_declarations`, `print_scop` and `generate_cpu`.

Behaviour of the code worth knowing:

- A loop-independent dependence (`S1[i] -> S2[i]` under an identity
  schedule) does not stop a loop from being parallel
  (`Parallelism.SameDateDependencesAreParallel`).
- When a leaf cannot be annotated, the isl tree is NULL and
  `isl_ast_node_print_macros` frees the printer. That happens when the
  statement is not found, or when a missing sub-expression comes before any
  access of the body. The opened block is then not closed, the text after
  the SCoP is still copied, and `generate_cpu` returns 0
  (`Driver.FailedBuildLeavesBlockOpen`).
- When a missing sub-expression comes after an access, the error path of
  `at_each_domain` crashes. `ppcg_stmt_free` reads `access[0]` for each
  counted access, but the access array has not been allocated yet. The
  model excludes these bodies (`Statements.SafelyFreed`).
- Accesses are visited in the stored order of each pet node's arguments,
  so an assignment's left-hand side comes first.

## Model

| member | source | states |
|---|---|---|
| OutputFile.GetOutputFile | cpu.c:63-87 | an explicit output path is used verbatim; otherwise the path is the final component's text before its last '.', then ".ppcg", then the extension with its dot, assembled in a PATH_MAX buffer by memcpy and two strcpy calls |
| OutputFile.AssembleName | cpu.c:79-81 | the buffer holds the first len characters of the base name, the marker, then the rest of the base name |
| OutputFile.MemCpy | cpu.c:79 | the copied range equals the source prefix and every other cell is unchanged |
| OutputFile.StrCpy | cpu.c:80-81 | the string is copied at the offset and NUL-terminated, and the cells before the offset and after the NUL are unchanged |
| OutputFile.BaseName | cpu.c:71-75 | the final path component has no '/', and an input without '/' is its own base name |
| OutputFile.DotOf | cpu.c:76-77 | the position found holds the last '.' of the name |
| OutputFile.DerivedNameKeepsStemAndExtension | cpu.c:56-62 | the derived name has no directory part, keeps the base name's extension, and its stem is the base name's stem followed by ".ppcg"; stem and extension together give back the base name |
| OutputFile.DirectoriesAreDropped | cpu.c:71-75 | directory components, dots in them included, do not change the derived name |
| OutputFile.MarkerBeforeExtension | cpu.c:76-81 | with the marker put before the last '.', that '.' is still the name's last one: the new stem is the old stem followed by ".ppcg" and the extension is unchanged |
| OutputFile.MarkerAddsNoSlash | cpu.c:79-81 | putting the marker into a name without '/' adds no '/' |
| OutputFile.PlainNameGetsMarker | cpu.c:76-81 | a name without '/' whose only '.' starts its extension gets ".ppcg" between its stem and that '.' |
| OutputFile.FileDotCExample | cpu.c:60-61 | "file.c" becomes "file.ppcg.c" |
| Common.LastIndexOf | cpu.c:71 | strrchr: the position of the last occurrence, and none exactly when the character is absent |
| Parallelism.TimeDepsIsComposition | cpu.c:132-135 | the dependences in time are the union of the flow and false dependences composed with the schedule on range and on domain |
| Parallelism.TimeDepsHasDates | cpu.c:132-135 | every dependence between two scheduled instances appears as the pair of their dates |
| Parallelism.DependenceOf | cpu.c:132-135 | every pair of dates in the composed relation comes from a dependence between scheduled instances |
| Parallelism.Equate | cpu.c:146-151 | isl_map_equate keeps exactly the pairs that agree on the dimension |
| Parallelism.EquateStep | cpu.c:145-147 | equating dimension i after dimensions 0..i-1 gives the pairs that agree on 0..i |
| Parallelism.ScheduleDimIsParallel | cpu.c:119-159 | the result is the test: parallel when the composed relation is empty, and otherwise when the pairs equated on dimensions 0..d-1 agree on d, where d is the schedule space's output count minus 1 |
| Parallelism.InclusionIffNothingCarried | cpu.c:149-152 | the subset test holds exactly when no pair that agrees on the outer dimensions differs on the loop's dimension |
| Parallelism.ParallelCarriesNothing | cpu.c:119-159 | when the test says parallel, no dependence between two scheduled instances is carried by the loop's dimension |
| Parallelism.SequentialCarriesSome | cpu.c:119-159 | a loop that is not parallel carries a dependence between two scheduled instances |
| Parallelism.ParallelIffNoCarriedDependence | cpu.c:119-159 | parallel exactly when no dependence is carried by the loop's dimension |
| Parallelism.NoDependenceIsParallel | cpu.c:137-141 | without dependences every loop is parallel |
| Parallelism.OneDimensionalTest | cpu.c:141-150 | with a one-dimensional schedule space the test is equality of the single date |
| Parallelism.SameDateDependencesAreParallel | cpu.c:119-159 | dependences whose two instances get equal dates never stop a loop from being parallel |
| Parallelism.CrossIterationDependenceIsNotParallel | cpu.c:119-159 | in a one-dimensional schedule, a dependence between instances at two different dates makes the loop not parallel |
| Statements.WalkVisitsAllAccesses | cpu.c:421-437 | the walk fails exactly when a sub-expression is missing; it succeeds with every access in pre-order, and what it visited is always a prefix of that list |
| Statements.WalkArgsVisitsAllAccesses | cpu.c:430-434 | the same over the first n arguments, stopping at the first failure |
| Statements.WalkArgsStops | cpu.c:432-434 | once an argument fails, later arguments are not visited |
| Statements.ReIndex | cpu.c:471-484 | the index list has one expression per output dimension of the access |
| Statements.ReIndexAll | cpu.c:461-491 | the k-th list is the k-th access re-indexed |
| Statements.ReIndexAllConcat | cpu.c:461-491 | re-indexing a concatenation concatenates the lists |
| Statements.FilledTwice | cpu.c:488-489 | filling one run of slots and then the next fills the concatenated run |
| Statements.PpcgStmt.CallAccessFn | cpu.c:439-444 | inc_n_access only bumps the counter; add_access writes the re-indexed access into slot n_access and bumps it; both return 0 |
| Statements.PpcgStmt.ForEachAccessExpr | cpu.c:421-437 | returns -1 exactly when a sub-expression is missing; the counter grows by the number of accesses visited, and the array is filled by the callback in visit order |
| Statements.PpcgStmt.ForEachArg | cpu.c:430-434 | the argument loop stops at the first -1 and otherwise visits every argument in order |
| Statements.PpcgStmt.BuildIndexList | cpu.c:477-483 | the list built dimension by dimension is the re-indexed access |
| Statements.FirstIndexFrom | cpu.c:298-307 | the first index from i on with the identifier, or none exactly when no statement from i on has it |
| Statements.StmtWithIdIsFirst | cpu.c:294-311 | a statement is found exactly when one has the identifier, and then it is the first such one |
| Statements.FindStmt | cpu.c:294-311 | the linear search returns the first statement with the identifier, or none |
| Statements.AtEachDomain | cpu.c:497-550 | the leaf hook's result is the annotation: none when lookup or the counting walk fails, otherwise the statement with its accesses re-indexed through the reversed leaf schedule; for SCoPs whose bodies never fail after an access, so the error path frees nothing |
| Statements.AnnotationPairsAccesses | cpu.c:518-539 | a leaf is annotated exactly when its statement is found and has no missing sub-expression, and then slot k holds the k-th access in traversal order re-indexed |
| Ast.BuildInfo.MarkOpenmpParallel | cpu.c:163-174 | a loop is marked, and the flag set, exactly when the flag was clear and the loop is parallel; otherwise nothing changes |
| Ast.BuildInfo.BeforeFor | cpu.c:178-218 | a fresh annotation starts unmarked and is then marked as above |
| Ast.BuildInfo.AfterFor | cpu.c:228-245 | the flag is cleared when the node is marked and kept otherwise |
| Ast.BuildAst | cpu.c:570-586 | the recursive build with the hooks, installed only with OpenMP, produces the specified tree, and a successful build leaves the flag as it found it |
| Ast.BuildChildren | cpu.c:585 | the children are built in order with the same flag, stopping at the first failure |
| Ast.BuildListElements | cpu.c:585 | a built child list has one node per child, each the child's own build |
| Ast.OutermostParallelLoopIsMarked | cpu.c:163-174 | along any path, a loop is marked exactly when OpenMP is on, the flag was clear on entry, and it is the first parallel loop on the path |
| Ast.ForLoopIsMarkedIfOutermost | cpu.c:163-174 | the same for a path that starts at a loop: the loop's own mark, then the marks below it with the flag the loop leaves |
| Ast.BlockPassesMarks | cpu.c:585 | the same for a path that starts at a block, which passes the flag on unchanged |
| Ast.BuiltForNode | cpu.c:178-245 | a built loop node is marked as mark_openmp_parallel decides, and each child is built with the flag that marking leaves |
| Ast.FirstParallelShift | cpu.c:163-174 | below a loop that is not parallel, the first parallel loop of the path is the first parallel loop of the rest of the path |
| Ast.AtMostOneMarkedPerPath | cpu.c:163-174 | no root-to-leaf path holds two marked loops |
| Ast.NoDependencesMarkOutermostLoops | cpu.c:137-141 | without dependences, exactly the outermost loop of each path is marked |
| Ast.SiblingParallelLoopsAreBothMarked | cpu.c:237-240 | two parallel sibling loops are both marked, because the after-hook clears the flag between them |
| Ast.NoOpenmpNoAnnotation | cpu.c:573-583 | with OpenMP off, no loop carries an annotation |
| Printing.Printer.StartLine | cpu.c:346 | the current line is started empty (print_user at 346, print_for_with_openmp at 376) |
| Printing.Printer.PrintStr | cpu.c:348 | the text is appended to the current line (the ";" at 348, the pragma text at 377) |
| Printing.Printer.EndLine | cpu.c:349 | the current line becomes the last finished line (print_user at 349, print_for_with_openmp at 378) |
| Printing.SubscriptsRoundTrip | cpu.c:279-287 | a named access prints one "[e]" per index in index order, so the indices can be read back when none contains '[' |
| Printing.ParseLastSubscript | cpu.c:283-285 | the last subscript is read back after the text before it |
| Printing.PrintAccess | cpu.c:256-290 | an unnamed access prints "(" index0 ")"; a named one prints its name and its subscripts |
| Printing.AccessCursor.PrintAccessExpr | cpu.c:318-327 | the access is printed with the list under the cursor, and the cursor moves by exactly one |
| Printing.PrintPetExpr | cpu.c:347 | walking the body moves the cursor once per access and prints the operator text with each access's list in turn |
| Printing.PrintArgs | cpu.c:347 | the arguments are printed in order between their operator text |
| Printing.PrintUser | cpu.c:332-354 | one finished line: the rendered body followed by ";" |
| Printing.CursorPairsEachAccess | cpu.c:313-327 | walking the cursor beside the printer pairs each access with its own transformed list |
| Printing.CursorPairsEachArg | cpu.c:313-327 | the same over the first n arguments |
| Printing.UserLinePrintsEachAccessReindexed | cpu.c:332-354 | the line printed for an annotated leaf is its body with every access printed with its own re-indexed list, then ";" |
| Printing.ShapedCompleteIsPrintable | cpu.c:426-427 | a well-shaped body without missing parts can be printed |
| Printing.BuiltTreeIsPrintable | cpu.c:497-550 | every tree the build produces can be printed |
| Printing.BuiltListIsPrintable | cpu.c:497-550 | the same for every built child |
| Printing.PrintFor | cpu.c:390-417 | a marked loop prints the pragma line and then the loop, any other loop prints the loop alone |
| Printing.PrintForWithOpenmp | cpu.c:372-383 | the line "#pragma omp parallel for", then the plain loop |
| Printing.ForPrint | cpu.c:380 | the engine's loop text around the body's printed nodes (the same call prints an unmarked loop at 412) |
| Printing.PrintNode | cpu.c:588-596 | the tree prints through the for and user callbacks |
| Printing.PrintChildren | cpu.c:596 | children print in order |
| Printing.UserLineIsNoPragma | cpu.c:348 | a statement line ends with ";", so it is never the pragma |
| Printing.PragmaLinePerMarkedLoop | cpu.c:372-417 | the printed tree holds exactly one pragma line per marked loop |
| Printing.PragmaLinesInList | cpu.c:372-417 | the same over the first n children |
| Printing.UnannotatedHasNoMarkedLoop | cpu.c:398-407 | a tree without annotations has no marked loop |
| Printing.UnannotatedListHasNoMarkedLoop | cpu.c:398-407 | the same over the first n children |
| Driver.AnyHiddenDeclarations | cpu.c:606-618 | 0 for no SCoP; otherwise 1 exactly when some array is declared and not exposed |
| Driver.DeclaredArrayIsListed | cpu.c:638-642 | every declared array's declaration is printed in the list of its exposure |
| Driver.ListedIsDeclared | cpu.c:638-642 | every printed declaration belongs to a declared array of that exposure |
| Driver.HiddenListIffHasHidden | cpu.c:639-643 | the hidden list is non-empty exactly when any_hidden_declarations reports hidden arrays |
| Driver.PrintScop | cpu.c:554-601 | the macros and the printed tree, or nothing when the tree could not be built; the result says whether a tree was printed |
| Driver.WriteOutputFile | cpu.c:634-648 | the file receives the copied prefix, the marker, the exposed declarations, the block opening with the hidden declarations, the printed SCoP, the block end when the printer survived, and the copied suffix |
| Driver.GenerateCpu | cpu.c:620-654 | -1 and no output without a SCoP; otherwise 0, the derived output path, and the output lines in their fixed order; for SCoPs whose bodies never fail after an access, where the source would crash while freeing |
| Driver.EmissionOrder | cpu.c:634-648 | prefix copy, marker comment, exposed declarations, then either block start, hidden declarations, tree, block end, or the tree alone; then the suffix copy |
| Driver.FailedBuildLeavesBlockOpen | cpu.c:595-648 | when the tree cannot be built, the output keeps the prefix, the declarations and the suffix, and an opened block is not closed; for SCoPs the source can free safely |
| Driver.PragmaLinesAroundTree | cpu.c:634-648 | the text around the printed tree holds no pragma line, so the output's pragma lines are the tree's |
| Driver.PragmaLinesOfOutput | cpu.c:620-654 | the output file has exactly one pragma line per marked loop, given copied and engine text without the pragma line |
| Driver.NoOpenmpNoPragmaLine | cpu.c:573-583 | with OpenMP off, the output file has no pragma line |

## Left out

- File I/O is not modelled: `fopen`, `fclose`, `copy_before_scop` and `copy_after_scop`. The copied text before and after the SCoP is an input, and the output file is a sequence of lines.
- OutputFile.GetOutputFile: requires that the final path component contains a '.' and that the derived name fits PATH_MAX. Without a '.' the code passes NULL to strcpy, and a longer name overflows the buffer. Both are undefined behaviour. Each character of a model string stands for one byte of the C string, so PATH_MAX is counted in characters; multi-byte encodings are not modelled. A model string may also contain the character '\0', which a C string cannot hold; the model would keep the characters after it, where the source stops at it.
- Printing.PrintAccess: requires an unnamed access to have at least one index expression. With none, the code prints a NULL expression.
- Driver.GenerateCpu: requires every statement body to be well-shaped, with operator text around its arguments and an index for every unnamed access. It also requires that no body has a missing sub-expression after an access (`SafelyFreed`). For such a body the source crashes in `ppcg_stmt_free`, reading the unallocated access array, and that crash is not modelled. A missing sub-expression before any access is still allowed, and the failed build it causes is modelled.
- Statements.AtEachDomain: requires `SafelyFreed` for the same reason. The error path after a failed counting walk is modelled only where it frees nothing.
- Driver.FailedBuildLeavesBlockOpen: requires `SafelyFreed`. For other SCoPs the source crashes while building the tree, so no output is promised for them. Ast.BuildAst, Ast.BuildChildren, Driver.PrintScop and Driver.WriteOutputFile carry the same requirement.
- isl algebra is not modelled. The composed dependences are finite sets of timestamp pairs. The SCoP's context and domain intersection is left out. The schedule the build reports for a loop is an input.
- `isl_map_from_union_map` is taken to succeed; the model does not capture a union of several spaces. When it fails, `isl_map_is_subset` returns -1, which is stored in the unsigned `is_parallel` and returned as nonzero, so `mark_openmp_parallel` would mark the loop; that error path is not modelled.
- AST materialisation from the schedule is an input tree. That covers the loop header and footer text, the indentation, and which helper macros are printed.
- Converting an access relation to index expressions is a function parameter `synth` (`isl_pw_multi_aff_from_map`, coalescing, `isl_ast_build_expr_from_pw_aff`). So is the printing of one index expression. `synth` is one function for the whole tree, while `isl_ast_build_expr_from_pw_aff` also depends on the leaf's own build; the model does not capture that dependence.
- The pet expression printer appears only through its callback contract.
- print.c is not part of this model. `ppcg_print_exposed_declarations` and `ppcg_print_hidden_declarations` are modelled as one declaration line per declared array of the matching exposure. `ppcg_start_block` and `ppcg_end_block` are modelled as the lines "{" and "}".
- Allocation failures are not modelled, and neither is memory release. `isl_calloc_type` and `isl_calloc_array` are taken to succeed (a zero-length array included). The unchecked `malloc` in allocate_ast_node_userinfo and all the `_free` and `_copy` ownership are left out.
- The "statement not found" diagnostic of `isl_die` is left out; only its NULL result is modelled.
- Ast.BuildAst: after a failed build the flag's value is not stated. The whole tree is discarded in that case.

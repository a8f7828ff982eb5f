# OKL loop-nest compiler: a verified model

The repository rewrites OKL loop nests (`@outer`, `@inner`, `@tile`) into CUDA-like kernels, serial code and a
host launcher. This project models that pipeline in Dafny and proves what it must get right. It follows the
program's own order:

* **Front end.** `AttrFsm` is the token machine that finds attributes, `AttrParser` the recursive-descent reader of
  their arguments, `AttrBrackets` what brackets in an argument mean to it, `AttrSyntax` the two readers together,
  `TileAttribute` and `DimOrder` the parsers of `@tile`, `@outer`, `@inner`, `@dim` and `@dimOrder`,
  `LoopHeader` the normal form of a `for` header.
* **Semantic pass.** `SemaCtx` and `SemaRun` build the loop tree from start and stop events, `LoopTree` holds the queue
  searches, `KernelUtils` and `LoopLegality` accept or reject the tree, `Axes` and `PassedAxes` number the hardware
  axes, `InnerSizes` and `UnknownSizes` compute the block size, `Barriers` places barriers and `BarrierWalk` follows
  them into the nests. `PassAccepts` says exactly which kernels pass;
  `AcceptedKernels` and `LaunchedKernels` join these to what holds of every kernel that passes.
* **Code generation.** `LoopLang` is a small loop language (`let`, `for`, `if`, sequence, body) whose meaning is the
  sequence of index tuples at which bodies run. `TileOffsets` and `TileCodeGen` give the emitted tiles a meaning,
  `CudaNest` and `GridCoverage` the code of one GPU thread and of the whole grid (`LevelCover` has the numbers),
  `Launcher` the grid computed on the host, `GridLevels` and `AnyGrid` one nest in any grid, `Branches` the nests of a
  kernel that branches, `ExplicitAxes` axes named in the source, `LaunchBound` the launch bound, `SerialProgram` whole
  serial programs, `Exclusive` and `ExclusiveNests` the slots of `@exclusive` variables, `Splicing` how C reads the
  source texts that are spliced into emitted expressions.
* **Source positions.** `DeltaTrees` maps offsets of the original source into the edited text.
* **Examples.** `KernelExamples`, `ExclusiveExamples`, `BarrierExamples` and `BranchExamples` hold concrete kernels that
  pass every check and show where the code falls short, `TileExamples` concrete tiles.

The results that join several parts are these.

* `Launcher.LaunchedKernelRunsNestOnce`: over the grid that the launcher computes, the emitted kernel runs the body
  exactly once for each iteration of the source nest, and the thread that runs it is named.
* `SerialProgram.SerialPreserves`: serial code runs the bodies of a whole program at the same indices in the same
  order, also where bounds depend on loops around.
* `KernelUtils.VerifyLoopStructure`: what the structure check accepts, as a statement about all root-to-leaf paths.
* `SemaRun.KernelRebuilt`: the events of a kernel succeed exactly on legal forests, and then rebuild the forest with
  all its links.
* `PassAccepts.PassAcceptsExactly`: which kernels of one signature the pass accepts.
* `PassedAxes.PassSucceedsExactly` and `PassedAxes.AxesAreKept`: the same for every kernel, whatever axes it names, and
  which axes are then stored; `ExplicitAxes.PassedExplicitAxes` takes these to the grid.
* `AcceptedKernels.KernelSignature` and `AcceptedKernels.KernelAxes`: the order of levels and the stored axes of every
  kernel without explicit axes, from the success of the pass and the structure check alone.
  `LaunchedKernels.PassedLaunchBound` adds the block size of chains of constant sizes that the launcher can count, and
  `LaunchedKernels.KernelExclusive` the slots of plain loops of known sizes.
* `AnyGrid.GridExactly` and `LaunchedKernels.KernelNests`: exactly which nests of an accepted kernel, with tiles or
  without, the launched grid runs once, whatever the launcher left out of it.
* `LoopHeader.RecordedIsWritten`: the recorded header walks through the values that condition and increment give.
* `UnknownSizes.SizesExactly`: which sizes the block size is made of, and when one is missing.
* `AttrSyntax.WrittenIsVisited` and `AttrSyntax.VisitedReadsBack`: every written attribute is found by the token machine
  and read back as its tree.
* `Barriers.BarrierSafety`, `BarrierWalk.BarriersOutsideNests`, `TileCodeGen.SerialTileExact`,
  `GridCoverage.TileStaysInRange`, `GridCoverage.MixedTileExact`, `Launcher.SecondExtent`,
  `DeltaTrees.SurvivorsAreMapped`, `InnerSizes.LargestExactly`, `ExclusiveNests.NestsFit`, `AttrFsm.DropsFromTokens`,
  `Splicing.IndexTextExact`: exact conditions, in both
  directions, under which the code does what it is for.

## Where the code falls short of what it is for

Each of these is proved, with the exact condition. Where a failing input is named, it is proved as well.

* A second tile loop emitted as a `for` covers T units of the variable, not T iterations: for `i += 2` below 8 and
  T = 3, serial code leaves out 4 and GPU code runs at 3 and 5 (`TileExamples.SerialTileSkips`,
  `TileExamples.CudaTileStrays`). A checked serial tile skips iterations unless the step or T is 1 or one pass covers
  the range; without the check the counts must fit too (`TileCodeGen.SerialTileExact`, any step). The regular tile of
  the CUDA generator needs the step to divide T or a range of at most T, and without the check fitting counts
  (`TileCodeGen.CudaRegularTileExact`). A GPU tile with an index for the blocks and a `for` inside meets the same
  condition as the serial tile (`GridCoverage.MixedTileExact`).
* The launcher's extent of a second tile loop is right exactly for increasing loops with step 1, or T = 1
  (`Launcher.SecondExtent`); for the tile above it is 2 (`TileExamples.SecondExtentShort`).
* A loop that counts down by adding a negative number is taken for one that subtracts it: for `i += -1` from 2 thread 1
  runs at 3 (`TileExamples.AddedNegativeStrays`). A header that moves toward its bound is recorded rightly if and only
  if its step is positive (`LoopHeader.RecordedIsWritten`), and a plain loop's index is wrong, except in thread 0,
  exactly when a negative number is added (`CudaNest.IndexIsTurn`).
* A tile of literal size 0 is launched without threads (`Launcher.ZeroTile`).
* The launcher takes the grid from the chain of first children, and leaves out the axes below an ordinary first child
  that leads to no attributed loop. Over the grid of a nest of 8, a nest of 4 in the same kernel is not run exactly once
  (`BranchExamples.LastNestStrays`), and the one nest of an accepted kernel that stands behind an ordinary loop gets no
  thread axis at all (`BranchExamples.HiddenNestMissed`). A nest is run exactly once if and only if the launched grid,
  with extent 1 on the axes left out, fits it loop by loop or an idle loop keeps it from running
  (`LaunchedKernels.KernelNests`, `GridLevels.LevelExactly`); for plain loops its extents must be those
  (`Branches.SiblingNests`).
* The launcher asks for the threads of the first nest, which can be more than the launch bound: 8 against 4
  (`BranchExamples.BlockBeyondBound`). They are within it exactly when the product down the first children is at most
  the one kept (`LaunchedKernels.KernelBlock`).
* The launcher ignores explicit axes. Over a grid with several threads along every axis a nest is run exactly once if
  and only if its axes of each type are a rearrangement of those computed, so that none clash, and the extents so
  rearranged fit, or it is idle (`ExplicitAxes.ExplicitAxesExactly`, `ExplicitAxes.ClashAndSwap`).
* Ordinary second loops of tiles count as levels: two levels of `@tile(4, @outer)` around two of `@tile(4, @inner)` are
  rejected (`TileExamples.FourTilesRejected`); `PassAccepts.PassAcceptsExactly` has the whole condition.
* The direct-parent legality check misses an `@outer` under an `@inner` when a regular loop lies between: a kernel with
  the path Outer, Inner, Outer passes everything (`KernelExamples.HiddenOrder`). Paths are in order exactly when every
  loop is legal in its nearest attributed ancestor (`AcceptedKernels.KernelSignature`).
* The block size keeps the last child whose product exceeds that of the child before it. Nests of 8, 1 and 4 threads get
  the launch bound 4 (`KernelExamples.RiseAfterFallLosesMaximum`). It is the largest over all paths exactly when every
  kept child, from the root down, has a largest product among its siblings (`InnerSizes.LargestExactly`).
* The known range size of a header is the trip count only under the condition of `LoopHeader.RangeSizeIsTripCount`; a
  negative difference wraps to a large size although the loop does not run.
* The recorded comparison is not the written one exactly for `!=`, which the operator table does not hold, and for
  an order whose right side is a recovery expression, which is turned round although the loop variable is on the left
  (`LoopHeader.ConditionMeaning`, `LoopHeader.ConditionsLost`).
* No barrier follows a `@tile(@inner)` nest, and none follows the last nest of an `@outer`, although an ordinary loop
  around that `@outer` may repeat it in the same block (`BarrierExamples.RepeatedNestRaces`). Safe are exactly the
  kernels in which no nest that uses shared memory is left without a barrier where the block can run another nest
  after it (`Barriers.BarrierSafety`, for whole top-level outer loops). `@nobarrier` on a tile is looked at too late
  and suppresses nothing.
* Only the loop directly around is asked whether it is an `@inner` one: with an ordinary loop between two `@inner` loops
  a barrier is emitted inside the nest (`BarrierExamples.BarrierInsideNest`). None is exactly if nothing inside a nest
  is due one (`BarrierWalk.BarriersOutsideNests`).
* The exclusive counter is stepped only in a bottom loop that contains no other loop (`Exclusive.OwnSlotsExactly`). It
  is reset only before a whole nest, while the array is as long as the product kept for one child of the outer loop:
  two nests of 4 inside an inner loop of 2 read 16 slots of an array of 8 (`ExclusiveExamples.ForkLeavesArray`), and
  an ordinary loop around nests of 8, 1 and 4 gets an array of 4 (`ExclusiveExamples.VeiledLeavesArray`). A nest fits
  exactly when its slots reach no further than the product kept for some child (`ExclusiveNests.NestsFit`); nests that
  do not branch all fit exactly when the largest product is kept (`ExclusiveNests.ChainsFitExactly`). Nests of equal
  shape inside one loop give an iteration the same slot exactly when the counter is not stepped between them
  (`ExclusiveNests.SubnestsShareSlots`).
* An attribute that the end of the file cuts off is dropped without an error: a lone `@`, a bare `@ ident`, or an open
  argument list (`AttrFsm.CutOffShapes`, each behind any readable file by `AttrFsm.CutOffIsDropped`; behind a bare
  attribute it completes that one first, `AttrFsm.CutOffCompletes`). Something is dropped exactly then
  (`AttrFsm.DropsFromTokens`).
* The bracket counters of the argument reader have sixteen bits: behind 2^16 open brackets a `,` ends the argument
  (`AttrBrackets.DeepCommaEnds`; below that depth never inside brackets, `AttrBrackets.TextIsSpan`).
* The recorded parameter text has no blanks, so words side by side merge (`AttrSyntax.WordsMerge`).
* The error about an unexpected loop names the first child, which may be an innocent regular loop
  (`KernelExamples.InnocentBlamed`) unless the condition of `KernelUtils.Unexpected` holds.
* A replacement of width zero moves the character behind it away from its mapped offset
  (`DeltaTrees.SurvivorsAreMapped`, `DeltaTrees.WedgeShifts`), an insertion behind a token is recorded at the token's
  start (`DeltaTrees.InsertAfterTokenShiftsToken`), and an indented insertion is recorded with the size before
  indentation (`DeltaTrees.IndentedInsertShifts`).
* Source texts are spliced without brackets. `@dim(N + 1, M)` indexed by (i, j) reads i + (N + (1 * (j)))
  (`Splicing.SumAsDimension`); the index is read as meant exactly when every dimension but the last named binds at
  least as tightly as `*` and every argument but the last at least as tightly as `+` (`Splicing.IndexTextExact`), and
  is then worth the index that is a bijection (`Splicing.EmittedIndexValue`). The stride, the end of the inner tile
  loop, the block count and the offsets in GPU code have the conditions of `Splicing.StrideExact`,
  `Splicing.TileEndExact`, `Splicing.BlockCountExact` and `Splicing.GpuOffsetExact`; with `i += c + 1` a block index
  is multiplied by T * c + 1 (`Splicing.SumAsStep`).

## Model

| member | source | states |
|---|---|---|
| AttrFsm.OklAttributeParserFsm.ProcessToken | lib/pipeline/utils/okl_attribute_traverser.cpp:61-156 | One token moves the machine's fields exactly as the transition function says. |
| AttrFsm.StepKeepsBuilding | lib/pipeline/utils/okl_attribute_traverser.cpp:70-141 | Every accepted token keeps the record in step with the tokens: contiguous indices, rendered parameter text, depth equal to the open brackets. |
| AttrFsm.CompleteIsAttribute | lib/pipeline/utils/okl_attribute_traverser.cpp:84-109 | A completed record is an attribute of the grammar, the depth is zero, and the cursor is behind it or on its closing bracket. |
| AttrFsm.VisitOklAttributes | lib/pipeline/utils/okl_attribute_traverser.cpp:158-210 | For any tokens and any visitor, with the tokens that a parameter list admits written out in the grammar: the visited attributes are genuine, disjoint, left to right with no `@` between them; the pass ends at the end of the tokens, at a malformed token, or when the visitor says stop. |
| AttrFsm.LegalIsUnique | lib/pipeline/utils/okl_attribute_traverser.cpp:158-210 | The grammar and the visitor's answers determine both what is visited and what is returned. |
| AttrFsm.OneAttributeAt | lib/pipeline/utils/okl_attribute_traverser.cpp:84-109 | An attribute that begins at a token has only one possible end. |
| AttrFsm.DroppedExactly | lib/pipeline/utils/okl_attribute_traverser.cpp:158-210 | A pass that succeeds has left an `@` unvisited if and only if the first one it left is cut off by the end of the file. |
| AttrFsm.DropsFromTokens | lib/pipeline/utils/okl_attribute_traverser.cpp:158-210 | The pass over a file succeeds and drops something if and only if behind some attributes that the visitor accepts the next `@` is cut off. |
| AttrFsm.LeftOverIsCutOffOrReported | lib/pipeline/utils/okl_attribute_traverser.cpp:158-210 | If the visitor never stops it, every pass that leaves an `@` over either reports the token behind which that attribute breaks, or succeeds with it cut off by the end. |
| AttrFsm.CutOffIsDropped | lib/pipeline/utils/okl_attribute_traverser.cpp:84-141 | Behind any file that is read to its end with nothing left over, a cut-off attribute changes neither the visits nor the success. |
| AttrFsm.CutOffCompletes | lib/pipeline/utils/okl_attribute_traverser.cpp:84-141 | Behind a file that ends in a bare attribute, a cut-off `@` makes that one visited, and is then itself dropped unless the visitor stops. |
| AttrFsm.CutOffShapes | lib/pipeline/utils/okl_attribute_traverser.cpp:84-141 | A lone `@`, a bare `@ ident` and an open argument list are all cut off. |
| AttrFsm.NextIsVisited | lib/pipeline/utils/okl_attribute_traverser.cpp:158-210 | Behind attributes that the visitor lets pass, every legal pass visits the next attribute of the grammar. |
| AttrParser.AttrParamParser.ParseArg | lib/attributes/utils/parser.cpp:107-151 | Returns and leaves behind what the reading function gives on the remaining tokens, also past the end. |
| AttrParser.AttrParamParser.ParseNestedAttr | lib/attributes/utils/parser.cpp:291-319 | The nested attribute and the remaining tokens are those of the reading function. |
| AttrParser.AttrParamParser.ParseAttr | lib/attributes/utils/parser.cpp:322-380 | The attribute tree and the remaining tokens are those of the reading function, for any tokens. |
| AttrParser.AttrParamParser.ParseItem | lib/attributes/utils/parser.cpp:340-366 | One positional or keyword argument is added as the reading function says. |
| AttrParser.RawReadsBack | lib/attributes/utils/parser.cpp:22-52 | Before a `,` or `)`, a token run is read as exactly one raw argument if and only if its brackets close at its end and nowhere before a `,` or `)`, and it does not start like an attribute. |
| AttrParser.ArgReadsBack | lib/attributes/utils/parser.cpp:107-319 | Printing a well-formed argument and reading it gives its tree and leaves the following tokens untouched. |
| AttrParser.AttributeReadsBack | lib/attributes/utils/parser.cpp:322-380 | The same for a whole attribute with any mix of positional and keyword arguments, nested to any depth, positional ones in order, the last of equal keywords winning. |
| AttrParser.SameTokensSameTree | lib/attributes/utils/parser.cpp:291-380 | Written forms with equal tokens stand for equal trees. |
| AttrBrackets.TextIsSpan | lib/attributes/utils/parser.cpp:22-52 | Brackets told by nesting alone: a text nested less than 2^16 deep is one raw argument if and only if no `,` stands outside its brackets. |
| AttrBrackets.BracketsReadBack | lib/attributes/utils/parser.cpp:121-147 | Such a text that does not begin like an attribute is read back as one raw argument, with any brackets in it. |
| AttrBrackets.CommaEnds | lib/attributes/utils/parser.cpp:143-147 | A `,` outside all brackets ends the argument, whatever follows it. |
| AttrBrackets.DeepCommaEnds | lib/attributes/utils/parser.cpp:22-26 | Behind 2^16 open brackets a `,` ends the argument too. |
| AttrBrackets.OpenListEnds | lib/attributes/utils/parser.cpp:368-376 | Anything but `,` or `)` behind a nested attribute, or the end of the tokens, ends the list there and keeps the arguments read so far. |
| AttrBrackets.MissingValue | lib/attributes/utils/parser.cpp:340-353 | A keyword without a value at the end is dropped. |
| AttrBrackets.RawToEnd | lib/attributes/utils/parser.cpp:121-147 | A raw argument that is stopped nowhere goes to the end of the tokens, whatever it leaves open. |
| AttrSyntax.WrittenIsVisited | lib/pipeline/utils/okl_attribute_traverser.cpp:61-156 | Every written attribute, nested to any depth, whose raw arguments close their parentheses is visited as one attribute that ends at its last token. |
| AttrSyntax.VisitedReadsBack | lib/attributes/utils/parser.cpp:322-380 | The tokens recorded for it are read back as the same tree. |
| AttrSyntax.StringKept | lib/pipeline/utils/okl_attribute_traverser.cpp:132-139 | A string argument without escapes comes out of the recorded text as written. |
| AttrSyntax.WordsMerge | lib/pipeline/utils/okl_attribute_traverser.cpp:132-139 | Two words side by side are recorded like one. |
| TileAttribute.ParseLoop | lib/attributes/frontend/outer.cpp:50-73 | Success exactly for at most one index in 0..2 and no keyword; the axis is that index, or Auto without an integer index; which error otherwise. |
| TileAttribute.ParseTile | lib/attributes/frontend/tile.cpp:50-106 | Success exactly for 1 to 3 arguments of the right sort and at most the boolean keyword `check`; the first and second loop are what the second and third argument ask for, so a regular first loop has a regular second one. |
| DimOrder.ParseDimOrder | lib/attributes/frontend/dim_order.cpp:115-143 | Success exactly for a non-empty list of pairwise different indices without keywords; the error is that of the first argument that is no index or repeats one. |
| DimOrder.GetDimOrder | lib/attributes/backend/common/dim.cpp:30-80 | The order in force: 0..n-1 by default, else the attribute's if it has n entries all below n; with the front-end check it is a permutation. |
| DimOrder.ValidateDim | lib/attributes/backend/common/dim.cpp:83-107 | An access passes exactly when it has one expression per dimension beside the variable. |
| DimOrder.CheckedIsPermutation | lib/attributes/frontend/dim_order.cpp:126-142 | Passing the duplicate, size and range checks is the same as being a permutation of 0..n-1. |
| DimOrder.BuildIndexCalculation | lib/attributes/backend/common/dim.cpp:139-160 | The pieces built by the two loops are the printed nested expression; what their texts mean is in Splicing. |
| DimOrder.IndexIsBijection | lib/attributes/backend/common/dim.cpp:139-160 | For every permutation the nested expression is a bijection from in-range tuples onto 0..product(dims)-1. |
| Splicing.TextScans | lib/attributes/backend/common/dim.cpp:148-158 | The tokens of a text determine the text, so emitted text can be read in one way only. |
| Splicing.JoinExact | lib/attributes/backend/common/dim.cpp:151-152 | Two texts with an operator between them are read as that operator on both if and only if the left binds as tightly and the right more tightly. |
| Splicing.IndexTextExact | lib/attributes/backend/common/dim.cpp:139-160 | The emitted index, read with C precedence, is the nested expression if and only if the dimension texts but the last named bind at least like `*` and the argument texts but the last at least like `+`. |
| Splicing.EmittedTokens | lib/attributes/backend/common/dim.cpp:139-160 | The pieces the two loops emit have the tokens of the text so read. |
| Splicing.EmittedIndexValue | lib/attributes/backend/common/dim.cpp:139-160 | Then scanning and reading the emitted tokens gives a value in 0..product(dims)-1 from which the arguments are got back. |
| Splicing.SumAsDimension | lib/attributes/backend/common/dim.cpp:151-152 | For `@dim(N + 1, M)` indexed by (i, j) the text means i + (N + (1 * (j))). |
| Splicing.StrideExact | lib/attributes/utils/serial_subset/tile.cpp:43-48 | The stride `(T * step)` means the product if and only if both texts are tight enough. |
| Splicing.GpuOffsetExact | lib/attributes/utils/cuda_subset/loop_code_gen.cpp:43-64 | The offsets `((T) * step) * index` of GPU code are the product meant if and only if the step binds more tightly than `*`. |
| Splicing.SumAsStep | lib/attributes/utils/cuda_subset/loop_code_gen.cpp:43-64 | With the step `c + 1` the scale is read as T * c + 1. |
| Splicing.TileEndExact | lib/attributes/utils/serial_subset/tile.cpp:81-90 | The end `(tiled + T)` or `(tiled - T)` has T as its right operand if and only if T binds more tightly than the operator. |
| Splicing.TileEndValue | lib/attributes/utils/serial_subset/tile.cpp:81-90 | For an increasing loop its value is tiled + T also when T is a sum or a difference. |
| Splicing.BlockCountExact | lib/attributes/backend/launcher.cpp:162-166 | The block count `(R + T - 1) / T` divides by T if and only if T binds more tightly than division. |
| LoopHeader.ConditionMeaning | lib/core/utils/for_stmt_parser.cpp:97-150 | For all six comparisons, with the loop variable on either side: the recorded comparison and bound mean what was written if and only if the operator is not `!=` and an order has no recovery expression on its right. |
| LoopHeader.ConditionsLost | lib/core/utils/for_stmt_parser.cpp:97-150 | `i != 5` holds at 0 and what is recorded does not; `i < N` with N a recovery expression is recorded as `i > N`. |
| LoopHeader.ConditionAccepted | lib/core/utils/for_stmt_parser.cpp:97-150 | A condition is accepted if and only if one side is the loop variable under a cast or the right side is a recovery expression; the bound is the other side. |
| LoopHeader.RecordedIsWritten | lib/core/sema/okl_sema_info.cpp:58-78 | For every header whose increment moves toward its bound: it is recorded with the direction of the increment and proceeds if and only if its step is positive, and the recorded walk then takes the values that condition and increment give. |
| LoopHeader.SourceRunsWritten | lib/core/utils/for_stmt_parser.cpp:152-167 | The source loop of all meaning statements runs its body once for each of those values. |
| LoopHeader.RangeSizeIsTripCount | lib/core/utils/for_stmt_parser.cpp:169-183 | Exactly when the recorded range size is the number of iterations, with the difference of either sign. |
| LoopTree.GetFirstAttributedChild | lib/core/sema/okl_sema_info.cpp:140-178 | The queue loop returns what the search function gives, and ends because queued subtrees shrink. |
| LoopTree.SearchFindsFirst | lib/core/sema/okl_sema_info.cpp:140-178 | The search finds nothing exactly when no descendant satisfies the test; else it finds the left-most one of least depth. |
| LoopTree.GetHeightSameType | lib/core/sema/okl_sema_info.cpp:245-259 | The loop down the first attributed children counts the levels of a type on that chain. |
| KernelUtils.GetNextAttributedTypeIdx | lib/attributes/utils/kernel_utils.cpp:35-42 | The next attributed type of a loop, or -1. |
| KernelUtils.AddLoopChildrenToQueue | lib/attributes/utils/kernel_utils.cpp:51-60 | Appends the nearest attributed descendants in order, looking through regular loops. |
| KernelUtils.VisitNode | lib/attributes/utils/kernel_utils.cpp:82-131 | A queue node passes exactly when its type and its being a leaf agree with the first node; then its successors are queued, and otherwise the error says how it differs and names the loop. |
| KernelUtils.VerifyLoopStructureBFS | lib/attributes/utils/kernel_utils.cpp:68-134 | For any queue: accepted if and only if all paths from its nodes carry one sequence of types; otherwise the error names the first node, level by level and left to right, that does not agree with its level; it ends because the queue's weight falls. |
| KernelUtils.VerifyLoopStructure | lib/attributes/utils/kernel_utils.cpp:143-150 | A loop forest is accepted if and only if all its root-to-leaf paths, regular loops erased and tiles expanded, are equal. |
| KernelUtils.Unexpected | lib/attributes/utils/kernel_utils.cpp:93-125 | The error names the node's next tiled type, else its first child; that loop is attributed if and only if there is a next tiled type or the first child is attributed. |
| KernelExamples.InnocentBlamed | lib/attributes/utils/kernel_utils.cpp:93-125 | For an outer loop with an ordinary loop before its inner one, the error names the ordinary loop. |
| Axes.HeightOnEveryPath | lib/core/sema/okl_sema_info.cpp:245-259 | In an accepted tree the height along the first chain is the count on every path. |
| Axes.AxesCountLevelsBelow | lib/core/sema/okl_sema_info.cpp:261-294 | Every computed height is the number of same-type levels below it, on every path; KernelAxes says it of the stored axes. |
| Axes.AcceptedAxes | lib/core/sema/okl_sema_info.cpp:261-294 | In a forest of one signature the heights of attributed levels strictly fall along a path, and fit if and only if there are at most three attributed levels of each type; PassAcceptsExactly has the whole test. |
| PassAccepts.PassAcceptsExactly | lib/core/sema/okl_sema_info.cpp:245-294 | The pass accepts a kernel of one signature without explicit axes if and only if its loops are distinct, each is legal in its direct parent, there are at most three levels of each type, and nowhere more than three ordinary loops count together, second loops of tiles included. |
| TileExamples.FourTilesRejected | lib/core/sema/okl_sema_info.cpp:261-275 | Two levels of `@tile(4, @outer)` around two of `@tile(4, @inner)` are rejected. |
| LoopLegality.IsLegalTypes | lib/core/sema/okl_sema_ctx.cpp:77-95 | Legal types inside one loop are those where no Outer follows an Inner; first and last attributed type are returned. |
| LoopLegality.IsLegalLoopLevel | lib/core/sema/okl_sema_ctx.cpp:103-126 | The check against the direct parent accepts exactly the legal pairs. |
| LoopLegality.VerifyLoops | lib/attributes/utils/kernel_utils.cpp:179-225 | A kernel passes exactly when it has top-level outer loops, each with an inner one, and one path signature; which error otherwise. |
| LoopLegality.InnerPresentExactly | lib/attributes/utils/kernel_utils.cpp:198-206 | The test for an inner loop holds if and only if some path through the outer loop has an inner level. |
| LoopLegality.OrderIsAttributedLegality | lib/core/sema/okl_sema_ctx.cpp:103-126 | On a tree with one signature, Outers come before Inners if and only if every loop is legal below its nearest attributed ancestor. |
| LoopLegality.AcceptedSignature | lib/attributes/utils/kernel_utils.cpp:179-225 | A tree of one signature with an inner loop has paths Outer^a Inner^b with a, b >= 1 if and only if nearest attributed ancestors are legal. |
| LoopLegality.DirectCheckSuffices | lib/core/sema/okl_sema_ctx.cpp:286-290 | Without regular loops between attributed ones the direct-parent check implies that legality. |
| KernelExamples.HiddenOrder | lib/core/sema/okl_sema_ctx.cpp:103-126 | A concrete kernel passes the whole semantic pass and verifyLoops although its one path is Outer, Inner, Outer. |
| SemaCtx.OklSemaCtx.constructor | lib/core/sema/okl_sema_ctx.cpp:176-189 | A kernel starts with no loops. |
| SemaCtx.OklSemaCtx.IsTopLevelAttributed | lib/core/sema/okl_sema_ctx.cpp:157-170 | True exactly for an attributed loop with only regular loops around it. |
| SemaCtx.OklSemaCtx.StartParsingAttributedForLoop | lib/core/sema/okl_sema_ctx.cpp:258-311 | The whole new state and the error of entering a loop: illegal in its parent and nothing changes, or entered twice. |
| SemaCtx.OklSemaCtx.UpdateAutoWithSpecificAxis | lib/core/sema/okl_sema_info.cpp:261-294 | Auto axes get their heights exactly when these fit; given axes of a tile stay. |
| SemaCtx.OklSemaCtx.StopParsingAttributedForLoop | lib/core/sema/okl_sema_ctx.cpp:313-332 | The whole new state and the error of leaving a loop. |
| SemaCtx.OklSemaCtx.MarkSharedUsed | lib/core/sema/okl_sema_info.cpp:38-46 | The walk up the parents is the marking function. |
| SemaCtx.MarkUpExactly | lib/core/sema/okl_sema_info.cpp:38-46 | Exactly the loop and those around it are marked; nothing else changes. |
| SemaCtx.MarkKeepsUse | lib/core/sema/okl_sema_info.cpp:38-46 | Marking keeps that a loop around a using loop is itself marked. |
| SemaCtx.StepKeepsValid | lib/core/sema/okl_sema_ctx.cpp:258-332 | Every event keeps the arena well formed. |
| SemaCtx.FeedConcat | lib/core/sema/okl_sema_ctx.cpp:258-332 | A run of events splits at any point. |
| SemaRun.TraverseForest | lib/core/sema/okl_sema_ctx.cpp:258-332 | From any state, the events of any forest succeed exactly when each loop is legal, axes fit and statements are new, and then give exactly the expected state. |
| SemaRun.LayoutReadsBack | lib/core/sema/okl_sema_ctx.cpp:293-310 | The slots laid out for a forest read back as that forest with its axes settled. |
| SemaRun.KernelRebuilt | lib/core/sema/okl_sema_ctx.cpp:258-332 | For a whole kernel: the events succeed exactly on legal forests of distinct loops, and then the nodes with their parent and child links are those of the forest, every child names its parent, the loop map is one-to-one onto the nodes, no loop is open, and the top-level outer loops are in order those whose first type is Outer under regular loops only. |
| PassedAxes.PassSucceedsExactly | lib/core/sema/okl_sema_ctx.cpp:258-332 | The pass succeeds on any kernel, whatever axes it names, if and only if no loop occurs twice, every loop is legal directly in its parent, and every loop that leaves an axis open has at most two levels of each of its types further in. |
| PassedAxes.AxesAreKept | lib/core/sema/okl_sema_info.cpp:261-294 | Then every slot holds its loop with nothing changed but open axes: named ones are kept, and every other one is the number of levels of its type further in. |
| PassedAxes.HeightsAreLevels | lib/core/sema/okl_sema_info.cpp:245-275 | The computed numbers count the levels of the same type behind each entry of the loop. |
| AcceptedKernels.PassLeaves | lib/core/sema/okl_sema_ctx.cpp:286-332 | A successful pass over loops without explicit axes leaves every tree settled, with computed axes that fit and every loop legal in its parent. |
| AcceptedKernels.OuterTreesReady | lib/attributes/utils/kernel_utils.cpp:179-225 | The top-level outer loops of a successful pass meet what the structure check requires. |
| AcceptedKernels.KernelSignature | lib/attributes/utils/kernel_utils.cpp:179-225 | In every kernel that passes, each path has 1 to 3 outer and 1 to 3 inner levels; it is Outer^a Inner^b if and only if nearest attributed ancestors are legal, and always when no regular loop lies between attributed ones. |
| AcceptedKernels.KernelAxes | lib/core/sema/okl_sema_info.cpp:261-294 | In every such kernel the axes stored in the loops are, on every path, the numbers of same-type levels below, at most 2, and never repeat. |
| AcceptedKernels.KernelLaunchBound | lib/core/sema/okl_sema_info.cpp:310-316 | In every such kernel with known sizes the launch bound is the product along some path, and the largest one if and only if every kept child is largest among its siblings. |
| LoopLang.ValuesArePoints | lib/attributes/utils/serial_subset/tile.cpp:35-68 | A `for` walk visits its arithmetic progression of points. |
| LoopLang.ExecIrrelevant | lib/attributes/utils/serial_subset/tile.cpp:35-68 | Binding a variable that code does not use does not change its meaning. |
| TileOffsets.CheckedBlocksExact | lib/attributes/utils/serial_subset/tile.cpp:70-137 | Blocks of offsets with a check cover the range exactly when the stride is a whole pass or one pass suffices. |
| TileOffsets.UncheckedBlocksExact | lib/attributes/utils/serial_subset/tile.cpp:70-137 | Without the check they do, for any stride, exactly when one block has the right number of offsets, or the stride is a whole pass and whole passes fill the range. |
| TileOffsets.BlocksExact | lib/attributes/utils/serial_subset/tile.cpp:70-137 | Both in one condition, with the check on or off. |
| TileCodeGen.ForTileMeaning | lib/attributes/utils/cuda_subset/loop_code_gen.cpp:97-169 | The meaning of any two-loop tile, for any step, size, direction, comparison and body. |
| TileCodeGen.ForTileExact | lib/attributes/utils/serial_subset/tile.cpp:35-137 | Exactly when a two-loop tile, checked or not, has the source loop's meaning for every body. |
| TileCodeGen.SerialTileExact | lib/attributes/utils/serial_subset/tile.cpp:35-137 | A serial tile is the source loop, order included, if and only if step or T is 1 or one pass covers the range, and without the check the counts fit as well. |
| TileExamples.SerialTileSkips | lib/attributes/utils/serial_subset/tile.cpp:35-137 | For `i += 2` below 8 and T = 3, serial code runs at 0, 2, 6 where the source runs at 0, 2, 4, 6. |
| TileCodeGen.CudaRegularTileExact | lib/attributes/utils/cuda_subset/loop_code_gen.cpp:97-169 | The regular CUDA tile, checked or not, is the source loop if and only if the step divides T or the range is at most T, and without the check the counts fit as well. |
| TileExamples.CudaTileStrays | lib/attributes/utils/cuda_subset/loop_code_gen.cpp:97-169 | For the same tile GPU code runs at 0, 2, 3, 5, 6. |
| CudaNest.PlainMeaning | lib/attributes/utils/cuda_subset/loop_code_gen.cpp:173-202 | A plain indexed loop runs the body at the position of the thread's coordinate. |
| CudaNest.IndexIsTurn | lib/attributes/utils/cuda_subset/loop_code_gen.cpp:173-202 | Thread j of a plain loop takes the value after j turns of the written loop if and only if j is 0 or no negative number is added. |
| TileExamples.AddedNegativeStrays | lib/core/sema/okl_sema_info.cpp:58-69 | For `i += -1` from 2 down to 1 thread 1 runs at 3. |
| CudaNest.IndexedTileRun | lib/attributes/utils/cuda_subset/loop_code_gen.cpp:33-95 | A two-index tile runs the body at position T*block + thread, or not at all when the check fails. |
| CudaNest.CudaLoopMeaning | lib/attributes/utils/cuda_subset/tile.cpp:28-84 | For every kind of loop, any step and any tile size, the generated code runs the body at the thread's offsets. |
| CudaNest.WholeLoopMeaning | lib/attributes/utils/cuda_subset/tile.cpp:28-84 | For every loop but a tile of two ordinary loops that misses its condition, these are whole positions of the source loop. |
| CudaNest.MixedTileRun | lib/attributes/utils/cuda_subset/tile.cpp:28-84 | What block i of a tile with an index and a `for` loop runs, for any step and with or without the check. |
| GridCoverage.ChainHeight | lib/core/sema/okl_sema_info.cpp:245-259 | On a chain, the height of a type is the number of its levels below. |
| GridCoverage.ThreadMeaning | lib/attributes/utils/cuda_subset/loop_code_gen.cpp:33-202 | The hits of one thread's code for a chain of loops. |
| GridCoverage.NestMeaning | lib/attributes/utils/cuda_subset/loop_code_gen.cpp:33-202 | The hits of the source nest. |
| GridCoverage.ThreadCount | lib/attributes/utils/cuda_subset/loop_code_gen.cpp:33-202 | A thread meets an iteration once if it owns it and never otherwise. |
| GridCoverage.KernelCoversNest | lib/attributes/utils/cuda_subset/loop_code_gen.cpp:33-202 | For every thread of the grid: each source hit it owns once, and no other hit. |
| GridCoverage.EveryHitOwned | lib/attributes/utils/cuda_subset/loop_code_gen.cpp:33-202 | Every source hit occurs once and its owner is in the grid. |
| GridCoverage.TileBijection | lib/attributes/utils/cuda_subset/loop_code_gen.cpp:33-95 | For any step, direction and comparison, iteration q is run by block q/T and thread q%T and by no other. |
| GridCoverage.TileStaysInRange | lib/attributes/utils/cuda_subset/tile.cpp:51-84 | No thread runs a value outside the source range if and only if the check is on or T divides the trip count. |
| GridCoverage.MixedTileExact | lib/attributes/utils/cuda_subset/tile.cpp:28-84 | With an index first and a `for` second, every block runs exactly its own iterations if and only if the condition of the serial tile holds. |
| Launcher.CollectLoops | lib/attributes/backend/launcher.cpp:189-201 | The attributed loops down the first-child chain, in order. |
| Launcher.SplitLoops | lib/attributes/backend/launcher.cpp:204-308 | For any chain of loops the outer and the inner list hold, in order, each loop's extents of that kind: one for a plain loop, the first or second part of a tile. |
| Launcher.FillDims | lib/attributes/backend/launcher.cpp:309-330 | Extents are numbered down from the outermost while their variables are declared. |
| Launcher.GetRunDims | lib/attributes/backend/launcher.cpp:248-352 | The grid and block extents of a root loop. |
| Launcher.OneScope | lib/attributes/backend/launcher.cpp:309-330 | Outer and inner variables are declared in one scope, outer ones first, and each extent is measured there. |
| Launcher.FirstExtent | lib/attributes/backend/launcher.cpp:142-246 | The first extent of a tile is ceil(trips / T), for any step and direction. |
| Launcher.SecondExtent | lib/attributes/backend/launcher.cpp:204-246 | The second extent is T if and only if the loop increases and step or T is 1. |
| Launcher.ZeroTile | lib/attributes/backend/launcher.cpp:204-246 | A tile of literal size 0 asks for one block for each iteration and no thread. |
| TileExamples.SecondExtentShort | lib/attributes/backend/launcher.cpp:204-246 | For `i += 2` and T = 3 the extent computed is 2. |
| Launcher.LaunchMatchesGrid | lib/attributes/backend/launcher.cpp:142-330 | On a chain with Auto axes the launcher's extents are the kernel's, axis by axis. |
| Launcher.LaunchedKernelRunsNestOnce | lib/attributes/backend/launcher.cpp:142-330 | Over the launched grid, each iteration of the source nest is run exactly once, by its owner, and nothing else is run. |
| AnyGrid.GridExactly | lib/attributes/utils/cuda_subset/loop_code_gen.cpp:33-202 | A nest of any loops, tiles included, is run exactly once over any grid of its rank if and only if every loop fits its axes or one is idle; over a grid without threads if and only if it has no iterations. |
| GridLevels.LevelExactly | lib/attributes/utils/cuda_subset/loop_code_gen.cpp:33-202 | On given axes one loop is run exactly once: an index needs its own extent; a checked tile enough blocks of T threads, or threads for all iterations in one block; an unchecked one exactly as many. |
| GridLevels.AnyThread | lib/attributes/utils/cuda_subset/loop_code_gen.cpp:33-202 | Any thread, in the nest's own grid or not, runs the iteration tuples that its coordinates give, each once. |
| LevelCover.PairCovers | lib/attributes/utils/cuda_subset/loop_code_gen.cpp:33-95 | b blocks of s threads, T apart, meet each of n iterations once and nothing else under that condition. |
| LevelCover.PairMisses | lib/attributes/utils/cuda_subset/loop_code_gen.cpp:33-95 | Otherwise some number is left out, met twice, or met though it is none of the iterations. |
| AnyGrid.PlainGridExactly | lib/attributes/utils/cuda_subset/loop_code_gen.cpp:173-202 | A nest of plain loops is run exactly once over a grid with threads if and only if the extents are its own or a loop is idle. |
| AnyGrid.PaddedGrid | lib/attributes/backend/launcher.cpp:309-330 | A grid with fewer axes than the nest runs it as one with extent 1 on the others. |
| Branches.BranchHeights | lib/core/sema/okl_sema_info.cpp:245-259 | A branch of a tree of one signature has the heights, and so the axes, of the chain it would be alone. |
| Branches.SiblingNests | lib/attributes/backend/launcher.cpp:189-330 | In a kernel of one signature, a nest of plain loops is run exactly once over the launched grid if and only if its extents are those of the loops collected down the first children, and 1 on the axes these leave out, or a loop is idle. |
| Branches.EveryNest | lib/attributes/backend/launcher.cpp:189-330 | The same for any nest, tiles included, and whatever the launcher computes: the grid must fit. |
| Branches.CollectedRank | lib/attributes/backend/launcher.cpp:189-201 | The launcher never asks for more axes than a nest of the kernel uses: what it collects reads as a prefix of the signature. |
| LaunchedKernels.KernelNests | lib/attributes/backend/launcher.cpp:189-330 | That for every nest of every kernel that the pass and the structure check accept. |
| LaunchedKernels.KernelBlock | lib/attributes/backend/launcher.cpp:189-330 | In every such kernel of known sizes the launched block is the product down the first children; it is at most the launch bound if and only if that is at most the product kept, and always where every kept child is largest. |
| ExplicitAxes.ExplicitAxesExactly | lib/core/sema/okl_sema_info.cpp:277-294 | With explicit axes and several threads along every axis, a nest is run exactly once if and only if it is idle or its axes are a rearrangement and the extents so rearranged fit. |
| ExplicitAxes.PlainExplicitAxes | lib/attributes/backend/launcher.cpp:309-330 | A chain of plain loops with explicit axes agrees with the launched grid if and only if it is idle or each loop finds its own extent on the axis it names, none named twice. |
| ExplicitAxes.PassedExplicitAxes | lib/core/sema/okl_sema_info.cpp:261-294 | The same for the axes that the pass stores: those named in the source, and the counted ones. |
| ExplicitAxes.CountedAxesAreOwn | lib/core/sema/okl_sema_info.cpp:261-294 | Where the source names no axis, the code with the stored axes is the code of the chain by itself. |
| ExplicitAxes.ClashAndSwap | lib/core/sema/okl_sema_info.cpp:277-294 | Axis 0 on two nested inner loops clashes; 0 around 1 is a rearrangement. |
| BranchExamples.LastNestStrays | lib/attributes/backend/launcher.cpp:189-201 | With nests of 8, 1 and 4 in one outer loop, the nest of 4 is not run exactly once. |
| BranchExamples.HiddenNestMissed | lib/attributes/backend/launcher.cpp:189-201 | An accepted kernel with one nest of 4 behind an ordinary loop is launched without a thread axis and the nest is not run exactly once. |
| BranchExamples.BlockBeyondBound | lib/attributes/backend/launcher.cpp:189-201 | An accepted kernel is launched with 8 threads per block against a launch bound of 4. |
| InnerSizes.GetInnerSizes | lib/core/sema/okl_sema_info.cpp:180-231 | The recursive loop over children computes the size function. |
| UnknownSizes.SizesExactly | lib/core/sema/okl_sema_info.cpp:180-231 | For a settled ranked tree of any sizes: a size is missing if and only if some inner loop on the path kept has an unknown range or a tile size that is no literal, and the product is that of the known sizes on that path. |
| UnknownSizes.KernelSizes | lib/attributes/utils/cuda_subset/kernel.cpp:26-41 | So for every accepted kernel: exactly when its launch bound is left out, and what it is otherwise. |
| UnknownSizes.KernelDeclares | lib/attributes/utils/serial_subset/exclusive.cpp:42-53 | The array of every `@exclusive` variable of an accepted kernel has length 1024 if a kept path has an unknown size, else the largest product. |
| InnerSizes.MaxIsLargest | lib/core/sema/okl_sema_info.cpp:180-231 | The reference maximum is attained on a path and no path exceeds it. |
| InnerSizes.MaxExactly | lib/core/sema/okl_sema_info.cpp:180-231 | For a settled tree of known sizes the computed product is that maximum if and only if every kept child, from the root down, has a largest product among its siblings. |
| InnerSizes.LargestExactly | lib/core/sema/okl_sema_info.cpp:180-231 | So the computed product is at least that of every path if and only if that holds. |
| KernelExamples.RiseAfterFallLosesMaximum | lib/core/sema/okl_sema_info.cpp:180-204 | A concrete kernel that passes every check gets the launch bound 4 although a path has the product 8. |
| InnerSizes.SizesOnPath | lib/core/sema/okl_sema_info.cpp:180-231 | The result is always the product of the inner sizes on some root-to-leaf path. |
| InnerSizes.SizesAreLargest | lib/core/sema/okl_sema_info.cpp:180-231 | A shape that suffices: without a rise after a fall among siblings the product is the largest over all paths. |
| InnerSizes.AcceptedLaunchBound | lib/core/sema/okl_sema_info.cpp:310-316 | For a settled tree of one signature: the product is that of a path, and the largest if and only if every kept child is largest; KernelLaunchBound derives its hypotheses from the pass. |
| LaunchBound.SameCeiling | lib/core/sema/okl_sema_info.cpp:206-228 | 1 + (n-1)/T is the ceiling of n/T. |
| LaunchBound.LaunchBoundIsBlockSize | lib/core/sema/okl_sema_info.cpp:206-228 | On settled constant unit-step chains the launch bound is the product of the launcher's inner extents. |
| LaunchedKernels.ChainLeaves | lib/core/sema/okl_sema_ctx.cpp:286-332 | A chain that passes is left settled, with computed axes and at most three inner levels. |
| LaunchedKernels.PassedLaunchBound | lib/core/sema/okl_sema_info.cpp:206-228 | For every constant chain that the pass accepts, the launch bound is the number of threads per block the launcher asks for. |
| SerialProgram.SerialPreserves | lib/attributes/utils/serial_subset/tile.cpp:141-235 | A program of any shape of nests and tiles keeps its meaning and order if every tile meets the exact condition for serial tiles wherever it is entered; bounds may use loops around. |
| SerialProgram.LeafTileExactly | lib/attributes/utils/serial_subset/tile.cpp:141-235 | One tile around one body keeps its meaning and order if and only if it meets that condition, with or without its check. |
| SerialProgram.UnitTilesFit | lib/attributes/utils/serial_subset/tile.cpp:141-235 | Checked tiles of unit step or size meet it wherever they are entered. |
| Exclusive.SlotIsRank | lib/attributes/utils/serial_subset/inner.cpp:37-55 | The counter read at each use is the mixed-radix rank of the iteration tuple. |
| Exclusive.SiblingsShareSlots | lib/attributes/utils/serial_subset/inner.cpp:37-43 | Sibling nests of equal shape give a tuple the same slot. |
| ExclusiveNests.SubnestsShareSlots | lib/attributes/utils/serial_subset/inner.cpp:37-55 | Two nests of equal shape inside one loop, both found in its run, give an iteration the same slot if and only if the counter is not stepped from the one to the other. |
| ExclusiveNests.InnerNestsDiffer | lib/attributes/utils/serial_subset/inner.cpp:37-55 | So nests of `@inner` loops inside one loop never do. |
| Exclusive.OwnSlotsExactly | lib/attributes/utils/serial_subset/inner.cpp:44-55 | On a chain of loops, iterations get slots of their own if and only if the innermost of them contains no loop or there is at most one iteration. |
| Exclusive.MayDeclareExactly | lib/attributes/utils/serial_subset/exclusive.cpp:24-38 | A variable may be declared exactly where the loop has an outer type and no inner one and the left-most attributed loop of least depth inside it has an inner type. |
| Exclusive.DeclaredLength | lib/attributes/utils/serial_subset/exclusive.cpp:42-53 | 1024 if a size is unknown, else the largest product over the children. |
| Exclusive.SlotsInsideArray | lib/attributes/utils/serial_subset/exclusive.cpp:42-80 | On a settled chain every slot lies below the declared length; KernelExclusive covers the nests of accepted kernels. |
| ExclusiveNests.TreeSlots | lib/attributes/utils/serial_subset/inner.cpp:37-55 | A nest of `@inner` loops of any shape reads consecutive slots, one per body run. |
| ExclusiveNests.TreeReach | lib/attributes/utils/serial_subset/inner.cpp:37-55 | For any tree of `@inner` and ordinary loops, the slots read after a reset reach exactly as far as a count on the tree says, also where a bottom loop contains a loop and does not step the counter. |
| ExclusiveNests.ChainIsTree | lib/attributes/utils/serial_subset/inner.cpp:37-55 | On a chain the two descriptions of a run agree. |
| ExclusiveNests.FitsExactly | lib/attributes/utils/serial_subset/exclusive.cpp:42-80 | A nest stays inside an array if and only if its slots reach no further than the array is long. |
| ExclusiveNests.LoneNestFits | lib/attributes/utils/serial_subset/exclusive.cpp:42-80 | A nest of `@inner` loops that is the one child of its outer loop stays inside the declared array if and only if it does not branch. |
| ExclusiveNests.NestsFit | lib/attributes/utils/serial_subset/exclusive.cpp:42-80 | The nests below an outer loop, with ordinary loops around and inside them, stay inside the declared array if and only if each reaches no further than the product kept for some child of the outer loop. |
| ExclusiveNests.ChainsFitExactly | lib/attributes/utils/serial_subset/exclusive.cpp:42-80 | Nests that do not branch all fit the declared array if and only if the largest product of all is kept for some child of the outer loop. |
| ExclusiveNests.ChainsFit | lib/attributes/utils/serial_subset/exclusive.cpp:42-80 | Nests that are children of the outer loop and do not branch always do. |
| LaunchedKernels.KernelExclusive | lib/attributes/utils/serial_subset/exclusive.cpp:24-80 | In every accepted kernel, for every outer loop that may declare an @exclusive variable around plain loops of known sizes, ordinary loops included: each nest fits the declared array if and only if it reaches no further than the product kept for some child; nests that do not branch all fit if and only if the largest product is kept. |
| LaunchedKernels.DirectNests | lib/attributes/utils/serial_subset/exclusive.cpp:24-80 | There, nests that are children of the outer loop fit if they do not branch, and a lone one only then. |
| ExclusiveExamples.ForkLeavesArray | lib/attributes/utils/serial_subset/exclusive.cpp:42-80 | A concrete kernel that passes every check reads a slot outside its declared array. |
| ExclusiveExamples.VeiledLeavesArray | lib/attributes/utils/serial_subset/exclusive.cpp:42-53 | An accepted kernel with an ordinary loop around nests of 8, 1 and 4 declares 4 elements and the nest of 8 reads outside them, although no nest branches. |
| Barriers.BarrierSafety | lib/core/sema/okl_sema_info.cpp:15-36 | For any tree of outer, ordinary and inner loops and tiles: one block runs every nest that uses shared memory with a barrier before every later nest, over all trip counts and repetitions, if and only if a condition on the tree holds. `@nobarrier` counts on plain `@inner` loops alone. |
| Barriers.SyncExactly | lib/core/sema/okl_sema_info.cpp:15-36 | Where a barrier is emitted, by the tree alone. |
| BarrierWalk.BarriersStand | lib/core/sema/okl_sema_info.cpp:15-36 | In every run, nests entered, a barrier stands exactly behind the loops that are due one. |
| BarrierWalk.BlockIsOutline | lib/core/sema/okl_sema_info.cpp:15-36 | The run that BarrierSafety speaks of is that run with the insides of nests left out. |
| BarrierWalk.BarriersOutsideNests | lib/core/sema/okl_sema_info.cpp:22-28 | No run meets a barrier while a nest is open if and only if nothing inside a nest is due one. |
| BarrierWalk.DirectNestsQuiet | lib/core/sema/okl_sema_info.cpp:22-28 | That holds where no ordinary loop stands around an attributed one. |
| BarrierExamples.BarrierInsideNest | lib/core/sema/okl_sema_info.cpp:22-28 | An accepted kernel with an ordinary loop between two inner loops meets a barrier inside its nest. |
| Barriers.PlainNestsAreSafe | lib/core/sema/okl_sema_info.cpp:15-36 | One outer loop with ordinary loops and plain `@inner` and `@tile(@inner, @inner)` nests inside is safe, also under a regular second tile loop. |
| BarrierExamples.RepeatedNestRaces | lib/core/sema/okl_sema_info.cpp:28-33 | In an accepted kernel a block runs the last nest of a repeated outer loop twice with no barrier between. |
| DeltaTrees.DeltaTreeSet.Insert | lib/core/rewriter/delta/delta_trees.cpp:29-36 | Adds one delta at key 2*offset to one file's tree and leaves the others. |
| DeltaTrees.DeltaTreeSet.Remove | lib/core/rewriter/delta/delta_trees.cpp:15-23 | Adds a negative delta at key 2*offset + 1. |
| DeltaTrees.DeltaTreeSet.Replace | lib/core/rewriter/delta/delta_trees.cpp:37-47 | Adds the difference of the sizes at key 2*offset + 1 unless they are equal. |
| DeltaTrees.DeltaTreeSet.GetNewOffset | lib/core/rewriter/delta/delta_trees.cpp:57-69 | The mapped offset; unknown files are unedited. |
| DeltaTrees.DeltaTreeSet.GetRangeSize | lib/core/rewriter/delta/delta_trees.cpp:109-138 | The range size, or -1 across files. |
| DeltaTrees.RunAgrees | lib/core/rewriter/delta/delta_trees.cpp:91-107 | After any run of non-overlapping edits, the buffer edited at mapped offsets is the text the edits mean, and the map agrees with it. |
| DeltaTrees.EditKeepsAgree | lib/core/rewriter/delta/delta_trees.cpp:97-107 | Every single edit keeps that agreement. |
| DeltaTrees.SurvivorsAreMapped | lib/core/rewriter/delta/delta_trees.cpp:91-95 | A surviving character is at its mapped offset if and only if no text was put there by a replacement of width zero, and where it is otherwise. |
| DeltaTrees.WedgeShifts | lib/core/rewriter/delta/delta_trees.cpp:37-47 | After a replacement of width zero before the second of two characters, the map sends that one to the new text. |
| DeltaTrees.MapIncreases | lib/core/rewriter/delta/delta_trees.cpp:91-95 | The map is strictly increasing on survivors. |
| DeltaTrees.RangeSizeIsEditedLength | lib/core/rewriter/delta/delta_trees.cpp:109-138 | The range size is the edited length if and only if edits inside the last token cancel out. |
| DeltaTrees.UneditedLastToken | lib/core/rewriter/delta/delta_trees.cpp:109-138 | They do when no edit lies inside the last token. |
| DeltaTrees.InsertAfterTokenShiftsToken | lib/core/rewriter/impl/dtree_rewriter_proxy.cpp:20-23 | After an insertion behind a token the map is wrong exactly on the characters of that token. |
| DeltaTrees.IndentedInsertShifts | lib/core/rewriter/impl/dtree_rewriter_proxy.cpp:12-18 | After an indented insertion the map is right at a surviving character if and only if it lies in front, the text has no new line, or the line has no indentation. |

## Left out

- Pointers to loops: the loop arena holds slot numbers where the program holds pointers; lists of children are slot lists.
- Emitted text: generated code is a tree of the loop language. Layout, brace placement and brace counters are not modelled. Spliced source texts are read with C precedence in `Splicing` alone, for binary operators that group to the left; the conditional and the assignment operators are not modelled there.
- Integer overflow and unsigned wrap: integers are unbounded, except the range size and the bracket counters, which wrap as in the program. Negative values of an unsigned `_occa_tiled_` variable are not modelled.
- Header parsing: cast stripping and the choice of the loop variable are the front-end library's; increments that are no unary or compound step are left out. The operator table maps `%=` to subtraction and `-=` to no operator; the model starts from the resulting operators and takes every compound one but `+=` for a subtraction.
- Literal evaluation: what an attribute argument is worth as a number or truth value is a parameter. The choice between literal and expression in an argument is not modelled.
- `AttrParser.AttrParamParser.ParseArg`: reading the token behind the last one is modelled as a token of no kind.
- `AttrFsm.OklAttributeParserFsm.ProcessToken`: the bracket depth is unbounded, where the program counts in 32 bits.
- `AttrSyntax.VisitedReadsBack`: the recorded text is lexed again; the model takes it to give the recorded tokens back, which words side by side do not.
- `DeltaTrees.DeltaTreeSet.GetNewOffset`: source locations are offsets of numbered files; the token length is a parameter.
- `DeltaTrees.RunAgrees`: the text buffer belongs to the rewriter library; it is modelled as editing at the same mapped offsets.
- `Launcher.LaunchedKernelRunsNestOnce`: chains of loops with bounds that do not depend on loops around, and axes left to the compiler; the launcher ignores explicit axes.
- `LoopLegality.VerifyLoops`: source ranges attached to errors.
- `LaunchedKernels.KernelExclusive`: plain loops of known sizes, and uses in bottom `@inner` loops; tiles are left out, and the length 1024 for unknown sizes has no bound to compare with.
- `AnyGrid.GridExactly`: a tile of two ordinary loops is taken to meet the condition of `TileCodeGen.CudaRegularTileExact`.
- `ExplicitAxes.ExplicitAxesExactly`: grids with a single thread along some axis, where a clash can be harmless.
- `PassAccepts.PassAcceptsExactly`: kernels whose attributed loops all read one signature, as the structure check demands later.
- `AcceptedKernels.PassLeaves`: kernels whose axes are all left to the compiler.
- `Barriers.BarrierSafety`: a nest of `@inner` loops is one event; accesses inside it are not told apart.
- `@max_inner_dims`, `@simd_length`, atomics, restrict, constants and function qualifiers: field writes and text substitutions.
- HIP and SYCL: the first reuses this code, the second repeats the arithmetic with axes renumbered.
- Macro expansion, preprocessing, header fusion, file handling, the command line, JSON metadata and logging.

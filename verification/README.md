# Verified models of the tools

The repository's `tools/` hold small exact algorithms between its machine-learning plumbing: a cycle finder, an
in-place graph rewrite, a crash-safe training loop, board geometry on an unbounded lattice, record matching through a
sorted index, a ladder client, a worker thread, a comment scanner, two stream parsers and a config minter with its audit.
This project models them in Dafny, function by function, and proves what they are relied on for.

- **Import DAG** (`Text`, `Digraph`, `CycleFinder`, `ImportDag`, `ImportEdges`). The three-colour depth-first search with
  its explicit path and iterator stacks, dotted-name resolution, the module graph and its condensation, the exit code; and
  the edges told again from the parts of the names that the imports hold.
- **Web export** (`OnnxGraph`, `NarrowCasts`, `NarrowMeaning`, `NarrowInPlace`). A small dataflow language with wrapping
  integers, static typing and a semantics; the Cast-dropping rewrite as a function, its meaning, and the in-place rewrite
  of node objects that computes it.
- **Training arm** (`TrainArm`, `TrainArmSafety`, `TrainArmCadence`, `TrainArmCode`). One file operation a step, a crash
  allowed between any two, any number of reruns under any recipe; the invariants range over every such history. The loop
  as written is proved to follow the machine.
- **Board geometry** (`Lattice`, `Planes`, `PlaneMeaning`, `PlaneSignature`, `Windows`, `RootTactics`, `ArenaDraw`,
  `ThreatAgreement`, `SixRun`). Three scanners and three copies of the turn cadence, each against an unbounded definition
  and against each other; the input planes, what each of them says, and what they read of the move order.
- **Record matching** (`Records`, `KeyIndex`, `PositionKeys`, `SettleGames`, `MatchRing`, `RingRows`). Prefix-sum tables,
  a sorted key index with binary search, and the decisions taken through it against the decisions they stand for; and a
  row's own key, so that rows cut from a record find it. Keys come from an open hash: everything is stated on key
  equality, nothing on freedom from collisions.
- **Ladder** (`LadderBoard`, `LadderBook`, `LadderRecord`, `LadderSession`, `LadderOutcomes`, `LadderSessionCode`,
  `LadderMatch`, `LadderServer`, `LadderPairing`, `LadderRuns`). The wire replay, the compound turn, one game between
  two bots, and a session as an event-driven machine whose server is an open source of events and answers: each call
  of the loop is answered, refused or lost by the network, a move with its turn placed or not, a challenge with itself
  made or not. Two sessions are then run side by side, each on its own stream, on one board; and a server that plays
  every challenge made once and as asked gives the colours of the pairs.
- **Analyst** (`Analyst`, `AnalystSafety`, `AnalystCode`). One worker, a FIFO queue, supersession by key, a stop sentinel
  that a drain puts back; submits and stops may fall between any two of the worker's queue operations.
- **Gates and configs** (`CommentScanner`, `CommentMeaning`, `CommentBudget`, `NameStatus`, `ConfigMint`, `ConfigHeader`).

Code that works by changing things is imperative here: classes for the exporter's node and model objects, the arm's
directory, the games table, the random source, the board, the session and the analyst; loops with invariants for every
loop of the source. Each such method is tied to a function or a relation, and the properties are lemmas about those.

## What turned out not to hold

Each with an input, and with the condition under which the code does what it is for.

- `tools/export_web.py:333-357`. Dropping Casts can change a value even when the closing type check passes: a product of
  indices that moves from int64 to int32 wraps (`NarrowMeaning.TypeCheckIsNotEnough`). A run keeps its values exactly when
  the values retyped fit 32 bits (`NarrowCasts.NarrowPreservesRunIff`); no arithmetic among the retyped suffices
  (`NarrowMeaning.NarrowPreservesMeaning`). Which values are retyped is told from the graph before the rewrite
  (`NarrowCasts.RetypedExactly`).
- `tools/ring_future.py:45`. Deduplicating a load with no records rebuilds a table with one offset and no game
  (`Records.NoRecordsMisaligned`): the prefix sums of nothing are still one zero. The rebuilt table is aligned exactly when
  there is a record (`Records.RebuiltAlignedIff`). `tools/distill/corpus.py:263` has the same expression and never meets the
  case: its caller draws its openings with `tools/openings/arena_draw.py:125-126`, which refuses to draw none.
- `tools/ring_future.py:32`. Grouping no rows raises, since splitting nothing gives one piece and no label; so a ring of no
  rows is not settled (`KeyIndex.GroupBy`, `SettleGames.SettleGames`: a result exactly when there is a row).
- `tools/ci_gates/comment_lint.py:136-142`. The literal of an escaped quote ends one character early, and a literal ends
  where it should exactly when the escaped character is not the quote (`CommentMeaning.EscapedLiteralEnds`); the tick left
  over can then hide a comment altogether (`CommentMeaning.EscapedQuoteHidesComment`).
- `tools/ci_gates/comment_lint.py:136-145`. A comment's line number falls behind by the newlines inside earlier character
  literals (`CommentMeaning.SpanLines`); it is right exactly where they hold none. `CommentMeaning.NewlineMisplaces` is a
  source whose second line is reported as the first.
- `tools/ladder/session.py:189-219` and `93`. A game whose finished record the network loses loses its receipt, and the
  challenger holds its challenge for out over every continuation without another finish or that challenge's end
  (`LadderSession.LostRecordReached`, `LostRecordWaits`). A finish writes its receipt and counts exactly when the record's
  reading is not lost (`LadderSession.FinishWritesUnlessLost`).
- `tools/ladder/session.py:171-187`. A move the server takes and whose answer is not heard leaves no row, and the two bots'
  book stones then fall short (`LadderBook.LostReplyMissesBook`). They add up exactly when no turn was placed unheard while
  the book ran (`LadderBook.BookStonesAddUp`).
- `tools/ladder/session.py:140-144` and `250-274`. Openings count games and first players count the challenges heard of, so
  a pair need not change colours: one challenge declined between its games leaves both on one side
  (`LadderRuns.DeclineKeepsColours`), and so does one that was made while its answer was lost
  (`LadderRuns.UnheardKeepsColours`). The games of a pair change colours exactly when the counts at the making of the two
  challenges they play differ in parity (`LadderPairing.SwappedExactly`); with every challenge heard of, exactly when those
  that ended between the two games are even in number (`LadderPairing.SwappedWhenHeard`).
- `tools/config_diff.py:31-32`. A null leaf set to an empty block is a change the audit cannot see, and the honest claim of
  it is reported as a lie (`ConfigMint.NullToEmptyUnseen`). Two documents look alike exactly when every path reads alike
  with null for a leaf that is not there (`ConfigMint.UnseenExactly`), and a claim is borne out exactly when it leads to a
  path that does not (`ConfigMint.ClaimSeenExactly`).
- `tools/config_diff.py:45` with `src/mantis/config/preflight_stamp.py:141`. A claim on an empty key, or on one that starts
  with a dot, does not cover what lies below it; all others cover every change made at them (`ConfigMint.SafeExactly`).
- `tools/config_diff.py:62`. The header's reader cuts a key at its first colon and strips it, so an honest mint of a key that
  holds a colon is reported as a lie (`ConfigHeader.ColonKeyMisread`). A key is read back as written exactly when it holds no
  colon and no outer blank (`ConfigHeader.SurvivesExactly`).

## Model

| member | source | states |
|---|---|---|
| Text.SplitOfJoin | tools/check_import_dag.py:52-57 | Joining parts with a separator none of them holds and splitting again gives the parts back. |
| CycleFinder.FindCycles | tools/check_import_dag.py:61-85 | Every list reported is a simple cycle, no two closed by one edge; none is reported exactly when the graph restricted to its keys is acyclic; deleting the closing edges leaves an acyclic graph. |
| CycleFinder.SearchFrom | tools/check_import_dag.py:66-84 | The stack loop from one white node ends with every node a walk from it reaches black, keeps the white/grey/black invariant, and terminates. |
| ImportDag.Resolve | tools/check_import_dag.py:50-58 | The result is the longest dotted prefix of the target that is a module, and nothing when no prefix is. |
| ImportDag.ResolvedFromIsLongest | tools/check_import_dag.py:50-58 | Popping parts from the right finds the longest prefix. |
| ImportDag.Dependencies | tools/check_import_dag.py:112-120 | A file's dependencies are exactly the modules its top-level imports resolve to, other than itself. |
| ImportDag.BuildModuleGraph | tools/check_import_dag.py:103-121 | Without a parse error the graph has an edge exactly for each import; a parse error is reported exactly when a file does not parse. |
| ImportDag.BuildCondensed | tools/check_import_dag.py:124-137 | The condensation joins two subpackages exactly when some module edge crosses between them. |
| ImportDag.CheckImports | tools/check_import_dag.py:88-145 | Exit code 2 exactly for a parse error, 0 exactly when module graph and condensation are both acyclic, else 1. |
| ImportDag.PassedIsWalk | tools/check_import_dag.py:124-137 | A walk over modules passes through the condensation as a walk, and one that never moves there stays in one subpackage. |
| ImportDag.CycleStaysInSubpackage | tools/check_import_dag.py:124-145 | With an acyclic condensation, every module cycle lies inside one first-level subpackage. |
| ImportEdges.EdgesExactly | tools/check_import_dag.py:29-58 | With every name told by its parts, a module's edges are exactly the nearest existing modules of the paths its imports name inside the package: `B.n` for `from B import n`, the name itself for a plain import. |
| ImportEdges.FromImportEdge | tools/check_import_dag.py:45-47 | `from B import n` is an edge to `B.n` when that is another module, else to its nearest existing ancestor. |
| ImportEdges.RelativeIsAbsolute | tools/check_import_dag.py:35-47 | A relative import of level l is the absolute import from the module's package without its last l - 1 parts. |
| ImportEdges.TooManyDots | tools/check_import_dag.py:39-41 | A relative import with more dots than packages around it names nothing. |
| ImportEdges.MutualImportIsCycle | tools/check_import_dag.py:108-139 | Two modules that import each other by name make the module graph cyclic. |
| ImportEdges.CondenseMeans | tools/check_import_dag.py:124-126 | A module folds into the package's name and its next part, the package's own file into the package. |
| ImportEdges.FoldTogether | tools/check_import_dag.py:124-134 | Two modules fold together exactly when their next parts agree or both have none. |
| OnnxGraph.NarrowWrap | tools/export_web.py:333-357 | A value's 32-bit wrap is its 64-bit wrap exactly when that one fits 32 bits. |
| OnnxGraph.RunKeeps | tools/export_web.py:321-330 | On inputs of their types, every value a run computes has the type inferred for it, in range. |
| NarrowCasts.DroppedIsPlan | tools/export_web.py:341-352 | What is dropped is exactly the int32-to-int64 Casts that are no output and are read somewhere and only where either width is taken, each bypassed to a surviving int32 value. |
| NarrowCasts.NarrowSlots | tools/export_web.py:60-61 | The slots are the indices of the gathers and the scatter and the data of the three shape operators; each types with either width, and the only other slots that do are the value a Cast, a Shape or a gather reads. |
| NarrowCasts.NarrowKeepsOrder | tools/export_web.py:341-354 | The rewritten graph is in order, defines each name once, has no reference to a dropped Cast left and every graph output still there, whatever the type check says. |
| NarrowCasts.NarrowedTypes | tools/export_web.py:355-356 | When the result passes the check, each surviving value keeps its type or goes from int64 to int32. |
| NarrowCasts.RetypedExactly | tools/export_web.py:333-357 | When the result passes the check, the values that change type are exactly the names told forwards from the dropped Casts of the original graph. |
| NarrowCasts.NarrowPreservesRunIff | tools/export_web.py:333-357 | When the result passes the check, a run keeps every surviving value's contents exactly when each of those names held values that fit 32 bits. |
| NarrowMeaning.NarrowPreservesMeaning | tools/export_web.py:333-357 | When the result passes the check and none of those names is computed by a wrapping operator, for every input both graphs run or neither does, every surviving value has the same shape and integers, and every output is the same tensor. |
| NarrowMeaning.TypeCheckIsNotEnough | tools/export_web.py:333-357 | A graph that passes both checks and whose output the rewrite changes: the condition on arithmetic is needed. |
| NarrowInPlace.NarrowIndexCasts | tools/export_web.py:333-357 | The in-place rewrite of the node objects leaves the model whose value is the rewrite function of the value it had, and reports whether the full check accepts it. |
| NarrowInPlace.CollectReaders | tools/export_web.py:337-340 | The reader table lists exactly the node and slot of every read of every name. |
| NarrowInPlace.RewirePass | tools/export_web.py:341-352 | One pass over the nodes, each test made on the graph as rewired so far, drops what the test on the original graph drops. |
| TrainArmSafety.EveryHistoryGood | tools/distill/train.py:210-348 | Every interleaving of file operations, skipped steps, crashes and reruns keeps the directory and the running process consistent. |
| TrainArmSafety.FinishedArmAccounts | tools/distill/train.py:330-346 | A finished arm's saves are exactly the named steps in 1..steps, all on disk; its curve's step column is 0, 250, ... as in an uninterrupted run; trained_steps is at most the newest saved step, with equality exactly when no save was backfilled. |
| TrainArmSafety.NamedSavesOnDisk | tools/distill/train.py:319-329 | At every moment every named step up to the newest save is on disk. |
| TrainArmSafety.HistoryKeepsSaves | tools/distill/train.py:307-329 | Once a save exists one always does, the newest saved step never falls, named saves stay, config, start record and finished record do not change. |
| TrainArmSafety.StepKeepsSaves | tools/distill/train.py:307-329 | The same of one file operation or crash. |
| TrainArmSafety.PrunedLeavesNamed | tools/distill/train.py:327-329 | After pruning only named saves and the newest are left. |
| TrainArmSafety.StoppedArmCanFinish | tools/distill/train.py:223-258 | However an unfinished arm was stopped, a rerun under its own recipe, or under any when it holds no save, finishes as that recipe's arm. |
| TrainArmCadence.SavesOnTime | tools/distill/train.py:307-334 | Over every history a live process holds a save at least as new as the last multiple of the interval it has been through, so does a finished arm, and every save on disk is of a named step or of such a multiple. |
| TrainArmCadence.DueMeans | tools/distill/train.py:325-326 | A step is saved exactly when it is named or a multiple of the interval, where there is one. |
| TrainArmCadence.TrainedAndLost | tools/distill/train.py:199-207 | The trained steps of the record and the steps between a backfilled save and the logged one before it make up the last logged save. |
| TrainArmCadence.BackfillsAreFound | tools/distill/train.py:252-256 | Over every history the backfilled saves are, in order, the saves that a resume found in no line of the log. |
| TrainArmCadence.AttemptsAreSteps | tools/distill/train.py:306-315 | A life's attempts are the steps it trained and those it skipped. |
| TrainArmCadence.GivesUpExactly | tools/distill/train.py:306-310 | A life gives up exactly when it has skipped a hundred steps more than it has left to train, leaving the directory as it is. |
| TrainArmCadence.RefusesExactly | tools/distill/train.py:221-250 | A rerun refuses exactly a finished arm, a save under another recipe and foreign files, leaving the directory as it is; it resumes at the newest save or starts afresh. |
| TrainArm.LogAccounts | tools/distill/train.py:199-207 | What the log's segments book is at most its last save, with equality exactly when none was logged by a resume. |
| TrainArmCode.Truncate | tools/distill/train.py:186-190 | The rows at or before the step, in order. |
| TrainArmCode.Segments | tools/distill/train.py:199-207 | The kept entries are each start's or resume's last booked save, and their steps add up to what the log says was trained. |
| TrainArmCode.ArmDirectory.TrainArm | tools/distill/train.py:210-348 | One call of the function, killed anywhere or not, leaves the directory where a run of the machine leaves it. |
| TrainArmCode.Lives | tools/distill/train.py:210-348 | After any number of calls under any recipes the directory is sound, and a finished arm's record accounts for it. |
| Lattice.CadencesAgree | tools/distill/planes.py:20-32 | The planes', the arena's and the audit's cadence all give the board's mover and stones left, at every ply. |
| Planes.CropMapsInverse | tools/distill/planes.py:35-58 | The two crop maps undo each other on every crop index and on every cell within 12 of the centre, and only those cells have an index. |
| Planes.SixPlanes | tools/distill/planes.py:71-99 | The array filled in place holds, at every plane and cell, what that plane says of that cell, with the position's centre. |
| PlaneMeaning.CenterIsMean | tools/distill/planes.py:35-42 | The centre is (0, 0) on the empty board; else each coordinate c has 2s - n < 2nc <= 2s + n for the sum s of the last n = min(4, stones) moves. |
| PlaneMeaning.NearestUnique | tools/distill/planes.py:42 | One integer is nearest in that sense. |
| PlaneMeaning.PlanesMean | tools/distill/planes.py:71-99 | At row r and column c of the crop each plane says, of the cell r - 12 and c - 12 from the centre, what it stands for: placed by the mover or the other on the board's cadence, free and within so many lattice steps of a stone, placed in this turn, placed in the turn before, a second stone to come, radius nine. |
| PlaneMeaning.DistanceIsSteps | tools/distill/planes.py:61-66 | The planes' distance is the least number of steps from neighbour to neighbour. |
| PlaneMeaning.TurnsAgree | tools/distill/planes.py:20-22 | Counting a new turn wherever the board's cadence changes player gives the planes' turn of every stone. |
| PlaneSignature.PlanesFactor | tools/distill/planes.py:71-99 | Two orders of one coloured stone set with one signature have the same centre and, for every radius, the same eight planes. |
| PlaneSignature.ThreeStonesFixSignature | tools/distill/corpus.py:21-22 | With three stones or fewer, who stands where decides the signature. |
| PlaneSignature.FourStonesDoNot | tools/distill/corpus.py:109-117 | Two orders of four stones with one coloured set, another signature and another plane 4: three is sharp. |
| PlaneSignature.PlanesShift | tools/distill/planes.py:35-99 | Shifting every stone of a non-empty position shifts the centre by as much and changes no plane. |
| RootTactics.WindowCounts | tools/distill/planes.py:102-116 | The table holds exactly the six-cell windows with a stone, each with both sides' counts. |
| RootTactics.RootTacticsAct | tools/distill/planes.py:119-131 | True exactly when some six-cell window anywhere on the lattice meets the count rule. |
| ArenaDraw.HoldsThreat | tools/openings/arena_draw.py:66-76 | Trying only the windows over a line's stones finds a threat exactly when the line has one. |
| ArenaDraw.IsBalancedOpening | tools/openings/arena_draw.py:54-63 | True exactly when no window anywhere holds four or more of one side and none of the other. |
| ArenaDraw.RegionIsNear | tools/openings/arena_draw.py:29-45 | The region is the cells at distance one or two from the origin, each once. |
| ArenaDraw.RegionAscends | tools/openings/arena_draw.py:35-45 | It is listed by column, then by row. |
| ArenaDraw.DrawOnce | tools/openings/arena_draw.py:89-98 | A draw is the origin and then, stone by stone, the free cell its index picks, with the arena's owners; else it ends at the first index out of range, told with the number of free cells, or where the source is dry. |
| ArenaDraw.OpensExactly | tools/openings/arena_draw.py:89-98 | A draw gives an opening exactly when the source holds an index for each stone below the cells then free: eighteen, then one fewer each. |
| ArenaDraw.DrawEndUnique | tools/openings/arena_draw.py:89-98 | The source leaves one end of a draw. |
| ArenaDraw.ShortIsBalanced | tools/openings/arena_draw.py:54-86 | No opening of five plies or fewer is out of balance. |
| ArenaDraw.DrawOpening | tools/openings/arena_draw.py:79-86 | Refused exactly for lengths that are even or outside 1..9; what it returns is the first balanced draw of its source, every draw before it out of balance. |
| ArenaDraw.FirstBalancedUnique | tools/openings/arena_draw.py:79-86 | The source of indices leaves one such draw. |
| ArenaDraw.Mulberry32.Index | tools/openings/arena_draw.py:101-121 | The index is the scaled word of the advanced state, and always below the bound asked for. |
| ArenaDraw.FirstWords | tools/openings/arena_draw.py:107-121 | The first two words of the seeds 0 and 1. |
| ThreatAgreement.ScannersAgree | tools/distill/planes.py:119-131 | At every odd length the tactics screen acts exactly when the opening is out of balance. |
| ThreatAgreement.ScreenStricterMidTurn | tools/distill/planes.py:119-131 | At every even length it acts only out of balance, and what it lets pass is a mover's window of four. |
| ThreatAgreement.DrawnOpeningIsQuiet | tools/openings/arena_draw.py:79-98 | No opening the draw accepts makes the screen act. |
| ThreatAgreement.DistancesAgree | tools/openings/arena_draw.py:29-32 | The arena's halved-sum distance is the planes' maximum. |
| SixRun.HasSixRun | tools/audit_bootstrap_corpus.py:456-469 | True exactly when six consecutive cells of some axis are in the set. |
| SixRun.RunIsFullWindow | tools/audit_bootstrap_corpus.py:456-469 | A side has a run exactly when some window of the unbounded lattice holds six of its stones. |
| SixRun.AuditConventions | tools/audit_bootstrap_corpus.py:472-581 | Each run counter is the number of decided games with the property it is named for; the draws, the first games outside the domain and with a repeated cell, the coordinate ranges and the nominal window's count are those of the games; the verdict is read off the counters. |
| SixRun.CountersPartition | tools/audit_bootstrap_corpus.py:492-575 | Holds and lacks make up the decided games, flipped and neither make up lacks. |
| SixRun.VerdictsMean | tools/audit_bootstrap_corpus.py:540-581 | INVERTED exactly when some declared winner lacks a run and in every such game the other side holds one; CONSISTENT exactly when some game is decided and every winner holds one. |
| SixRun.TallyIs | tools/audit_bootstrap_corpus.py:524-535 | A run counter is the number of games whose winner is 1 or -1 and that have the property it is named for. |
| SixRun.SidesMean | tools/audit_bootstrap_corpus.py:501-526 | A winner of 1 is the side that opens by the board's cadence, -1 the other: holding a run is a run in the cells that side placed. |
| SixRun.FiguresMean | tools/audit_bootstrap_corpus.py:492-522 | Draws are the games with winner 0, games outside the window those with a coordinate past nine; the lists are the first twenty games with a winner other than -1, 0 and 1, and with a cell played twice. |
| Records.OffsetsSlice | tools/distill/corpus.py:49-52 | Slicing the flat moves at the prefix sums gives each game back. |
| Records.AppendedHasOpenings | tools/distill/corpus.py:255-276 | Each appended game has its opening's moves, step -1 and no winner. |
| Records.OpeningRowsPoint | tools/distill/corpus.py:266-276 | Each appended row points at its opening's last ply, with the mover and stones left that the cadence gives there, outside the held-out split. |
| Records.AppendedKeepsGames | tools/distill/corpus.py:255-276 | Appending openings changes no game already there. |
| Records.AppendedAlignedIff | tools/distill/corpus.py:255-276 | The table stays aligned exactly when there is an opening to append, as its caller makes sure there is. |
| Records.Games.AppendOpenings | tools/distill/corpus.py:255-276 | The in-place append leaves the appended table, field by field, and returns the rows with the openings' own behind them. |
| Records.DedupeGames | tools/ring_future.py:35-43 | The kept records are in order, no two alike, the first copy of every record; kept and dropped add up. |
| Records.DedupeTable | tools/ring_future.py:35-49 | The table returned is the one rebuilt from the kept records. |
| Records.RebuiltHasGames | tools/ring_future.py:44-48 | Each kept record's slice of the rebuilt moves is its slice of the old, with its id, step and winner. |
| Records.RebuiltAlignedIff | tools/ring_future.py:44-48 | The rebuilt table is aligned exactly when there is a record. |
| Records.NoRecordsMisaligned | tools/ring_future.py:44-48 | A load with no records rebuilds to an offset of no game. |
| KeyIndex.Argsort | tools/ring_future.py:56-57 | Every place once, in ascending key order, equal keys in the order of their places. |
| KeyIndex.SearchLeft | tools/ring_future.py:58-59 | The place that parts the smaller keys from the others. |
| KeyIndex.SpanCounts | tools/ring_future.py:58-60 | An empty span is a key that does not occur, a span of one a key that occurs once, there, and the other way round. |
| KeyIndex.GroupBy | tools/ring_future.py:28-32 | Raises exactly on no labels; else each label's group holds exactly its places, ascending, in label order. |
| PositionKeys.GamePositionKeys | tools/distill/corpus.py:84-101 | The flat arrays are every game's keys, its index and its plies, game after game. |
| PositionKeys.PlaceHolds | tools/distill/corpus.py:84-101 | At the prefix-sum place of a game's position stand its key, its game and its ply. |
| SettleGames.SettleGames | tools/ring_future.py:52-82 | Raises exactly on a ring of no rows; else every row gets the outcome that the naive decision gives its ring game, and settled rows and the four refusal counts make up all rows. |
| SettleGames.SettleGroup | tools/ring_future.py:63-80 | One ring game's outcome through the index is what that outcome means without it: settled to g exactly when some row has one match and g fits every row. |
| SettleGames.OutcomesMean | tools/ring_future.py:63-80 | A settled record is the only one that fits; no_record and records_disagree mean none fits; settled exactly when some row has one match and some record fits. |
| SettleGames.SoleRowSettlesOne | tools/ring_future.py:66-78 | With a row of one match at most one record fits. |
| SettleGames.OutcomeUnique | tools/ring_future.py:63-80 | The outcomes exclude each other. |
| SettleGames.SpanMeans | tools/ring_future.py:58-60 | A row's span is empty exactly when no position has its key, and of one exactly when one does. |
| MatchRing.MatchRing | tools/distill/corpus.py:130-157 | Every row's match through the index is the naive one: as many candidates as positions with its key, the earliest ply of the lowest game among those whose winner agrees (or all), ambiguous exactly when they are several past ply three and their signatures differ. |
| MatchRing.UnambiguousFixesPlanes | tools/distill/corpus.py:130-157 | When a row's key stands for one stone set, an unambiguous match gives the centre and planes that any position of the pool would have given. |
| RingRows.RowStoneSums | src/mantis/diagnostics/ring_reader.py:105-111 | Each row's sum is that of its own stretch of the flat stone list. |
| RingRows.RowSumWraps | src/mantis/diagnostics/ring_reader.py:105-111 | A row's sum is the sum of its hashes modulo 2^64. |
| RingRows.KeyIsRowKey | tools/distill/corpus.py:84-106 | The key of a record's position after k stones is the key of a row with those coloured stones in any order, ply k and as many turns as the board's cadence completes in the whole record. |
| RingRows.CutRowsSettle | tools/ring_future.py:52-82 | A ring game whose rows were all cut from one record is settled to it when some row's key is no other position's, and else refused as no_unique_row; no other outcome is possible. |
| RingRows.RowWinnerMeans | tools/distill/corpus.py:148-150 | Where a row's mover is the cadence's and its result the game's, the winner read off it is the game's. |
| RingRows.CutRowMatched | tools/distill/corpus.py:130-157 | A row cut from a record with that record's result finds candidates and is given a game of the same key and result; where unambiguous and without collision, the planes are those of the position it was cut from. |
| LadderBoard.BoardFromWire | tools/ladder/wire.py:19-40 | Exactly the boards on distinct cells, placed by the cadence, between turns, with the mover named, are taken, with their stones; each refusal is for its own reason. |
| LadderBoard.WireMeans | tools/ladder/wire.py:24-39 | The boards taken hold an odd number of distinct cells whose sides run x, o, o, x and so on, o to move after one more than a multiple of four and x otherwise. |
| LadderBoard.TwoStones | tools/ladder/backends.py:79-101 | The forced stones first, the rest picked one by one with the last one down, the board untouched; refused exactly for more than two forced or a forced stone that is not legal where it falls. |
| LadderBook.OpeningRoundTrip | tools/ladder/openings.py:25-48 | An opening exists exactly inside the book, and back on its own first stone it is the book's. |
| LadderBook.ForcedMeans | tools/ladder/openings.py:51-59 | Off the book exactly when some ply departs from it; on it, the book's next stones, two at most and none at its end. |
| LadderBook.OffBookStays | tools/ladder/openings.py:51-59 | A board off the book stays off it. |
| LadderBook.ForcedShifts | tools/ladder/openings.py:25-27 | Wherever the origin stone stands, the forced stones move with it. |
| LadderBook.PlayedTogether | tools/ladder/session.py:146-187 | From the origin stone with one opening, whatever is searched, refused or lost, every reachable board agrees with the translated opening until it ends, neither receipt is marked off the book, and each records just its own player's book plies but those placed unheard. |
| LadderBook.BookStonesAddUp | tools/ladder/session.py:146-187 | The two receipts' book stones and the missed come to the opening's plies on the board less one; without the missed exactly when no turn was placed unheard while the book ran. |
| LadderBook.MissedExactly | tools/ladder/session.py:171-187 | Book stones are missed exactly through turns placed on a running book whose acceptance was not heard. |
| LadderBook.LostReplyMissesBook | tools/ladder/session.py:171-187 | One lost answer to a placed turn: three plies of the book on the board, no book stone recorded. |
| LadderBook.ReceiptsTell | tools/ladder/session.py:171-187 | Over a whole game the two receipts hold a row for each turn whose acceptance was heard and a rejection for each refused, and the board two stones for each turn placed, heard of or not. |
| LadderBook.MarkedExactly | tools/ladder/session.py:159-165 | Whatever the two openings, a receipt is marked with the size of the first board its bot was shown off its own opening, and not at all if there was none. |
| LadderBook.PartedIsMarked | tools/ladder/session.py:159-165 | Two openings that differ at a ply: once each bot was asked past it, one receipt is marked. |
| LadderRecord.ListOrderIrrelevant | tools/ladder/receipt.py:33-37 | The wire moves do not depend on the order of the server's list while its move numbers are distinct. |
| LadderRecord.WireReadsBack | tools/ladder/receipt.py:33-37 | The wire's moves run in the order of their numbers, the server's coordinates can be read back from them, and the side is x exactly for the player of the lowest number. |
| LadderSession.EveryRunSound | tools/ladder/session.py:84-275 | Over every run of events and answers, calls lost or refused among them: the three tables list the same games; games = wins + losses + aborted = receipts, by outcome; started games are active, recorded or lost; challenges add up; the n-th game against an opponent has opening offset + n/2; every receipt is readable. |
| LadderSession.ChallengesBounded | tools/ladder/session.py:234-275 | Challenges issued and unasked finishes = finished + ended + the one out, and never more than the plan's games and those ended. |
| LadderSession.ReplayIgnored | tools/ladder/session.py:118-122 | A start replayed for a game still on changes nothing. |
| LadderSession.LostRecordReached | tools/ladder/session.py:189-219 | A challenge made, its game started and its end lost with the record leave a running session with no receipt, no game counted and the challenge out. |
| LadderSession.LostRecordWaits | tools/ladder/session.py:189-248 | From there, every continuation without a finish and without that challenge's end leaves the challenge out and issues no other. |
| LadderSession.OutstandingWaits | tools/ladder/session.py:189-248 | So from any run's end with a challenge out. |
| LadderSession.FinishWritesUnlessLost | tools/ladder/session.py:189-219 | The end of a game that is on takes it out of the tables; its receipt is written, and it counts for the plan, exactly when its record is not lost; lost, summary and challenge stay. |
| LadderOutcomes.GamesOn | tools/ladder/session.py:118-138 | The games on are those the events put on and did not finish, each on the side and against the opponent its start gave. |
| LadderOutcomes.RunResults | tools/ladder/session.py:205-213 | Over every run wins, losses and aborted are the numbers of finishes of games on, record not lost, won by the side the game's start gave, by the other side, by neither; the receipts are those games' in order, each with its own outcome and side. |
| LadderOutcomes.OneOutcome | tools/ladder/receipt.py:77 | A scored finish comes out one way. |
| LadderOutcomes.PlanIsPlayed | tools/ladder/session.py:78-98 | A session with a plan counts exactly the finishes heard, lost records apart, never more than the plan's games; it runs only short of them and returns only at them or for a stream lost when it may not reconnect. |
| LadderOutcomes.LostStreamEnds | tools/ladder/session.py:89-98 | A stream lost ends the session exactly when it may not reconnect or has played its plan. |
| LadderOutcomes.AlwaysAsking | tools/ladder/session.py:214-248 | While its plan runs, a session whose stream was opened and whose issuing calls were heard has a challenge out. |
| LadderOutcomes.RejectionsCounted | tools/ladder/session.py:171-175 | The rejections counted are the moves sent that the server refused. |
| LadderOutcomes.TurnSent | tools/ladder/session.py:158-166 | The turn sent is the book's stones first and then the search's, each chosen on the board it is placed on. |
| LadderOutcomes.CallEnds | tools/ladder/session.py:171-187 | A call that is answered leaves the session running; a lost one, or a resignation lost after a refusal that is not stale, drops the stream; any other error ends it. |
| LadderSession.PairSharesOpening | tools/ladder/session.py:140-144 | Games 2k and 2k + 1 against an opponent share opening offset + k. |
| LadderSession.SessionsShareOpening | tools/ladder/session.py:140-144 | Two sessions from one place in one book share the opening of their n-th game against each other. |
| LadderMatch.SessionsPlayTogether | tools/ladder/session.py:118-219 | Two sessions from one place in one book, that saw the same games between them begin before, on their own streams in any interleaving, one game's requests showing the server's board: one opening; whatever either holds or writes of that game is the duel's receipt, never off the book; together they record the book's plies on the board less one exactly when no turn was placed unheard while the book ran. |
| LadderMatch.OpeningsAgree | tools/ladder/session.py:140-144 | Two sessions from one place play one opening exactly when the numbers of games they saw begin before halve alike. |
| LadderMatch.RecordsMarked | tools/ladder/session.py:118-219 | Whatever each saw begin before, what it records is marked by the first board it was shown off its own opening. |
| LadderMatch.MeetFollows | tools/ladder/session.py:118-219 | At every moment of it each session's receipt of the game is its seat of the duel, fresh until the game starts. |
| LadderMatch.MeetIsRuns | tools/ladder/session.py:84-114 | Side by side each session runs as it does on its own stream alone. |
| LadderServer.HonestRunOrderly | tools/ladder/session.py:189-275 | Against a server that plays each challenge made at most once and as asked, heard of or not, every game is seated as its challenge asks; while all were heard of, games are on one at a time and the j-th plays challenge j plus those ended before it. |
| LadderPairing.SwappedExactly | tools/ladder/session.py:140-144 | The games of pair k change seats exactly when the challenges issued at the making of the two they play differ in parity, each count being that of the challenges heard of before. |
| LadderPairing.SwappedWhenHeard | tools/ladder/session.py:234-274 | With every challenge heard of: exactly when those that ended between the two games are even in number. |
| LadderRuns.DeclineKeepsColours | tools/ladder/session.py:234-274 | A run with every challenge heard of and one declined between the games of a pair: one opening, the challenger first in both. |
| LadderRuns.UnheardKeepsColours | tools/ladder/session.py:242-274 | A run with no challenge ended and one made whose answer was lost: one opening, the challenger first in both. |
| LadderPairing.GamesAsListed | tools/ladder/session.py:118-144 | What a session records as started against an opponent is the games the server started between them, in its order. |
| LadderPairing.PairsOnBothBots | tools/ladder/session.py:140-144 | Where the server starts the games between two bots in one order, games 2k and 2k + 1 are the same two for both, on opening offset + k and opposite sides, and change colours under the condition above; with every challenge heard of and none ended the challenger plays first and then second. |
| LadderPairing.ChallengesExact | tools/ladder/session.py:189-275 | Against such a server no more games start than challenges were made, issued + unasked finishes = finished + ended + the one out, and the unasked are at most the challenges not heard of: none when all were. |
| LadderSessionCode.Session.OnMove | tools/ladder/session.py:146-187 | The handler changes the session as the machine's move event does: the receipt, the rejection count, the stream dropped under a lost call, or the failure. |
| LadderSessionCode.Session.OnFinish | tools/ladder/session.py:189-219 | The handler closes the game, books it and issues the next challenge as the machine does. |
| LadderSessionCode.Session.OnEvent | tools/ladder/session.py:84-114 | One event handled is one step of the machine, the plan's end noticed after it. |
| LadderSessionCode.RunStream | tools/ladder/session.py:78-98 | A stream handled event by event ends with the machine's summary, whose counters and receipts are the finishes' as the events tell them. |
| Analyst.KeysMean | tools/dash/analyst.py:16-24 | Two requests share a key exactly when client, engine, op and tier agree; engine listings never do. |
| AnalystSafety.EveryRunGood | tools/dash/analyst.py:41-87 | Every interleaving of submits, stops and worker steps keeps order, exactly-once, nothing lost, replacement, and late requests behind the sentinel. |
| AnalystSafety.NeverResolvedTwice | tools/dash/analyst.py:68-87 | No future is resolved twice. |
| AnalystSafety.HandledInOrder | tools/dash/analyst.py:56-87 | Handlers are called in the order of submission, over the whole run. |
| AnalystSafety.SupersededWasReplaced | tools/dash/analyst.py:67-74 | Between batches, every superseded request has a newer one of its key whose handler was called in the same batch. |
| AnalystSafety.AnswersTell | tools/dash/analyst.py:67-87 | Over every run each resolved future was resolved as its answer tells: refused by a call of the handler that raised, replied to by one that did not, superseded where a newer request of its key was looked at. |
| AnalystSafety.ExitAnswersAll | tools/dash/analyst.py:41-45 | When the worker has exited, every request submitted before the first stop is answered. |
| AnalystSafety.IdleAnswersAll | tools/dash/analyst.py:76-87 | When the worker waits on an empty queue, every request so far is answered. |
| AnalystSafety.WorkerAnswersAll | tools/dash/analyst.py:76-87 | From any point of any run the worker, left to itself, answers every request submitted so far, or before the first stop. |
| AnalystCode.AnalystThread.Enqueue | tools/dash/analyst.py:47-50 | A request joins the queue's end with a future of its own, whatever the worker is at. |
| AnalystCode.AnalystThread.PutStop | tools/dash/analyst.py:41-43 | The sentinel joins the queue's end, whatever the worker is at. |
| AnalystCode.AnalystThread.DrainQueue | tools/dash/analyst.py:56-66 | The drain loop takes the machine's drain steps, the sentinel put back last. |
| AnalystCode.AnalystThread.Supersede | tools/dash/analyst.py:67-74 | The survivors loop takes the machine's steps: the older of each key resolved, the newest kept in order. |
| AnalystCode.AnalystThread.Turn | tools/dash/analyst.py:76-87 | One turn of the worker loop is a run of worker steps to waiting or to exit, shortens the queue, and refuses exactly the handled requests that the handler raises on. |
| AnalystCode.Serve | tools/dash/analyst.py:41-87 | Any requests and stops between the turns, then turns until it rests: the state is that of a run of the machine with just those requests and stops, every invariant holds, every request is answered, or every one before the first stop, and a handled request is refused exactly when the handler raises on it. |
| CommentScanner.RustCommentSpans | tools/ci_gates/comment_lint.py:75-147 | The scan terminates and reports the spans of the comment tokens of the recursive tokeniser, in order. |
| CommentScanner.ScanBlock | tools/ci_gates/comment_lint.py:91-109 | The depth loop ends where the depth first returns to zero, its line count advanced by the newlines inside. |
| CommentMeaning.TokensTile | tools/ci_gates/comment_lint.py:79-147 | The tokens lie end to end over the source, each the token of its place. |
| CommentMeaning.TokensDisjoint | tools/ci_gates/comment_lint.py:110-135 | No two tokens share a character: nothing inside a string is reported. |
| CommentMeaning.TokensCover | tools/ci_gates/comment_lint.py:79-147 | The tokens' texts make up the source. |
| CommentMeaning.SpansAreComments | tools/ci_gates/comment_lint.py:85-109 | Every comment token and no other is reported, with its text. |
| CommentMeaning.SpanLines | tools/ci_gates/comment_lint.py:75-147 | A comment starts on one more than the newlines before it less those in character literals, and ends on as many more as it holds. |
| CommentMeaning.LinesExact | tools/ci_gates/comment_lint.py:75-147 | Where no character literal holds a newline the line is one more than the newlines before. |
| CommentMeaning.NewlineMisplaces | tools/ci_gates/comment_lint.py:143-145 | A literal that holds a newline, and a comment after it on the second line that is reported on the first. |
| CommentMeaning.DepthIsNesting | tools/ci_gates/comment_lint.py:91-106 | Counting depth ends a block comment where closing its inner comments one by one does. |
| CommentMeaning.CommentMeans | tools/ci_gates/comment_lint.py:85-109 | A line comment runs to its line's end, a block comment to its matching close or the end. |
| CommentMeaning.QuoteEndMeans | tools/ci_gates/comment_lint.py:123-135 | A string ends past its first quote with an even number of backslashes before it, or past the source. |
| CommentMeaning.PastTermMeans | tools/ci_gates/comment_lint.py:117-122 | A raw string ends past the first quote with as many hashes, or at the end. |
| CommentMeaning.KindMeans | tools/ci_gates/comment_lint.py:79-146 | What a place starts, by the text there: a comment at `//` or `/*`, a raw string at r or br, hashes and a quote where no word runs on, a string at a quote or b and a quote, a literal at a tick and a backslash or at a character between ticks. |
| CommentMeaning.MarksMean | tools/ci_gates/comment_lint.py:91-106 | A block comment's depth rises exactly at `/*` and falls exactly at `*/`. |
| CommentMeaning.RawEnds | tools/ci_gates/comment_lint.py:110-122 | A raw string ends past the first quote after its opening that as many hashes follow, or at the end. |
| CommentMeaning.EscapedLiteralEnds | tools/ci_gates/comment_lint.py:136-142 | An escaped literal's token ends at the literal's own close exactly when the escaped character is not the quote; then it ends before it. |
| CommentMeaning.EscapedQuoteHidesComment | tools/ci_gates/comment_lint.py:123-145 | A line with an escaped quote whose comment is not reported. |
| CommentBudget.Excess | tools/ci_gates/comment_lint.py:154-162 | The running count is the sum over the runs of length beyond the cap. |
| CommentBudget.RunIsListed | tools/ci_gates/comment_lint.py:154-162 | Every maximal run of flags is one of those runs. |
| CommentBudget.RunIsMaximal | tools/ci_gates/comment_lint.py:154-162 | Every one of those runs is maximal. |
| CommentBudget.Verdict | tools/ci_gates/comment_lint.py:330-349 | The measurement fails exactly when a failure is reported. |
| CommentBudget.MessagesMean | tools/ci_gates/comment_lint.py:334-348 | A message is sent exactly when its measure grew, its floor rose or it is below its floor. |
| CommentBudget.FailsMean | tools/ci_gates/comment_lint.py:334-348 | A failure is reported exactly when some measure is past its floor or some floor past the reference's. |
| NameStatus.PrintedReadsBack | tools/ci_gates/artifact_gate.py:95-110 | Printing rows NUL-separated and running either loop gives back every side of every change, or the new sides. |
| NameStatus.ReadChanges | tools/ci_gates/artifact_gate.py:95-110 | The loop reads what the stream's fields say, and fails exactly when a row runs off the end. |
| NameStatus.TargetFiles | tools/ci_gates/rule7_gate.py:303-321 | The loop reads the new sides, then keeps the tracked ones. |
| NameStatus.TrackedMeans | tools/ci_gates/rule7_gate.py:321 | The filter keeps the tracked paths, in their order, and no other. |
| NameStatus.ReadingsAgree | tools/ci_gates/rule7_gate.py:307-320 | On any stream at all, the new sides the artifact gate reads are the first ones the path gate reads. |
| NameStatus.SameNewSides | tools/ci_gates/rule7_gate.py:307-320 | On a printed stream both see the same new sides. |
| NameStatus.ArrivingSides | tools/ci_gates/artifact_gate.py:100-110 | What is sized is what was added, what was modified and where a move went; no old side is. |
| NameStatus.JudgeChanges | tools/ci_gates/artifact_gate.py:112-135 | 2 exactly when an arriving file cannot be sized, else 1 exactly when some change breaks a rule. |
| NameStatus.RowsPrintable | tools/ci_gates/artifact_gate.py:100-110 | A rename's or a copy's row, whatever its score, has two paths, every other letter's one. |
| NameStatus.UnsizedMeans | tools/ci_gates/artifact_gate.py:117-122 | Some change cannot be sized exactly when some row's new side arrives and has no size. |
| NameStatus.GateMeans | tools/ci_gates/artifact_gate.py:112-135 | A diff breaks a rule exactly when some row has a side under an artifact directory, or a new side that arrives and may not. |
| NameStatus.ArrivalMeans | tools/ci_gates/artifact_gate.py:123-134 | What may not arrive: under the fixtures a file of 10,000,001 bytes or more, elsewhere one of 1,000,001 or more or whose lower-cased path ends in `.jsonl`. |
| ConfigMint.ResolveParent | tools/mint_config.py:167-178 | The walk succeeds exactly when the dotted path exists. |
| ConfigMint.SetAtReads | tools/mint_config.py:213-224 | Below the path stands what was set. |
| ConfigMint.SetKeepsOthers | tools/mint_config.py:213-224 | Every leaf elsewhere is as it was, in its place in the order. |
| ConfigMint.Mint | tools/mint_config.py:206-225 | Each delta applied in turn, refused at the first unknown key, its key claimed. |
| ConfigMint.FlatLeaves | src/mantis/config/preflight_stamp.py:137-146 | The document's leaves in order, each under its dotted key, the later of two that come to one key. |
| ConfigMint.FlatReads | src/mantis/config/preflight_stamp.py:137-146 | Where no key is empty or holds a dot, a path's key reads its leaf, and is there exactly when the path ends in one. |
| ConfigMint.ChangesAreClaimed | tools/config_diff.py:31-45 | Every leaf a mint changes is covered by a claimed key, in any document, when no claimed key is empty or starts with a dot. |
| ConfigMint.SafeExactly | tools/config_diff.py:35-45 | A key covers every change made at it, in any document and to anything, exactly when it is not empty and does not start with a dot. |
| ConfigMint.MintedMatches | tools/config_diff.py:88-93 | With keys neither empty nor starting with a dot, a mint's claims and changes cover each other exactly when every claim covers a leaf that changed. |
| ConfigHeader.KeyReadBack | tools/config_diff.py:60-64 | Whatever its values, a delta line is read back as its key up to the first colon, without outer blanks. |
| ConfigHeader.SurvivesExactly | tools/config_diff.py:60-64 | A key is read back as written exactly when it holds no colon and neither starts nor ends with a blank. |
| ConfigHeader.ParseHeader | tools/config_diff.py:48-65 | The reader's loop gives the template the last such comment names and the keys the delta lines claim, of the leading comments alone. |
| ConfigHeader.ClaimsMean | tools/config_diff.py:61-64 | A claim is what follows the mark of some leading comment, up to its first colon and stripped, unless nothing is left. |
| ConfigHeader.TemplateMeans | tools/config_diff.py:59-60 | The template is what follows the mark of the last leading comment that holds it, stripped. |
| ConfigHeader.CrLfBreaksOnce | tools/config_diff.py:56 | A carriage return and a newline break a line once. |
| ConfigHeader.HeaderComments | tools/mint_config.py:263-267 | The lines of a written header come back as its leading comments, whatever body follows that does not start with one. |
| ConfigHeader.HeaderClaims | tools/mint_config.py:263-267 | The keys read from a written header are those its deltas carry. |
| ConfigHeader.MintThenAudit | tools/config_diff.py:68-99 | A mint written with its header and audited: MATCH exactly when the keys carried and the changes cover each other; with keys that survive the header and are safe, exactly when every key set covers a leaf that changed. |
| ConfigHeader.ColonKeyMisread | tools/config_diff.py:60-64 | A key that holds a colon: its honest claim matches, and the claim the header carries does not. |
| ConfigMint.Audit | tools/config_diff.py:89-99 | 0 exactly when every change is claimed and every claim has a change; what it names is what is not. |
| ConfigMint.UnseenExactly | tools/config_diff.py:31-32 | Two documents with plain keys show no difference exactly when every path reads alike, null for a leaf that is not there. |
| ConfigMint.ClaimSeenExactly | tools/config_diff.py:31-45 | A claimed key covers a difference exactly when it leads to a path that reads otherwise. |
| ConfigMint.NullToEmptyUnseen | tools/config_diff.py:31-32 | A mint that sets a null leaf to an empty block: another document, no difference between the two flat tables, and its own claim not matched. |

## Left out

- Dictionary and set order: where the source sorts or iterates a set, the model takes the elements in any order, so its statements hold for the sorted one.
- The import gate's file walk, the parsing of source text, and its printing; a file is its parsed top-level imports or a parse failure.
- The ONNX operator set: Cast, Gather and its two variants along the first axis, Unsqueeze, Expand, Reshape, Shape, Concat and three arithmetic operators stand for it; nodes have one output, floats do not round, and the closing check is the type checker of this language.
- graph_refusal and the static-shape flag of the value types (`tools/export_web.py:321-330` and `360-379`): finite tests on the written graph.
- The numeric witnesses, ONNX Runtime, PyTorch, the Rust engine: foreign calls.
- The training arm's event log, held-out values, hashes, YAML text, CUDA limits, and lines torn by a partial append: each file operation is atomic, and the trainer's step rises by one on a step that is not skipped.
- A directory moved aside keeps nothing that the arm reads again: the model forgets it.
- PlaneSignature.PlanesFactor: the signature's sorted parts are compared as multisets, which for sorted lists is the same; 64-bit overflow of coordinates is not modelled.
- ArenaDraw.DrawOpening: redrawing ends with the index source, a finite list; that a seeded source ends it at all is not proved.
- ArenaDraw.Mulberry32.Index: the float division and product are exact reals, which for 32-bit words and small bounds they are.
- Hash functions: any function of cell and colour and any fold; no claim that keys do not collide.
- The held-out split, the percentile and histogram tables, the record loaders and the ring writer.
- LadderBook.PlayedTogether: that the book's stones are legal where they fall is the callers' premise.
- LadderMatch.SessionsPlayTogether: a request shows the board as it stands when it is answered, and the server starts a game once; its own rules are not modelled beyond that.
- LadderSession.EveryRunSound: receipts are values in the session's table, so sharing of receipt objects is not modelled; a failure of the disk or of the engine inside a handler is not, nor the retry loop of a challenge beyond its last answer, nor the account read before the first stream.
- Clocks, wake counts, time limits and log lines of the ladder, and the receipt's file.
- The submitter's wait: a request whose submitter gave up is still answered; a request queued behind the sentinel after the worker left never is.
- AnalystCode.AnalystThread.Turn: the class runs a turn without other threads; their steps between its operations are in the machine, for which the invariants are proved.
- The comment gate's Python half, its banner and citation patterns, and its floor file; which characters are word characters is left open.
- NameStatus.JudgeChanges: blob sizes and lower-casing are open functions; the choice of a base to diff against is left out.
- ConfigMint.Mint: documents are trees of values: two keys that share one block through an alias in the file are not modelled, nor `--mint-row`.
- ConfigHeader.MintThenAudit: the body is any text that does not start with a comment and the document it stands for is taken as minted; how values are rendered is left open; a key or template name that holds a line break is not modelled.
- ConfigMint.Audit: values differ as values; the source's equality also takes true for 1 and 1.0 for 1.
- Schema validation of a minted config is taken to be the identity.

# Lattik verification

A Dafny model of the parts of Lattik whose correctness rests on an argument across several
functions, with proofs that hold for every input, every interleaving and every run. `dafny verify
dfyconfig.toml` checks everything.

- `expression/`: the Lattik expression language. A concrete syntax of the stratified grammar with its
  limits, the recursive-descent parser as a specification and as a class with `pos`, `errors` and
  `depth`, the lexer, the SQL emitter, the in-place type checker and the parse cache. The parser is
  sound and complete for the grammar; printing and parsing are inverse exactly on a class of
  expressions that the predicate `Faithful` describes. Kinds of expressions outside it: a comparison left of a
  comparison, NOT, BETWEEN, IN, IS NULL or LIKE as a bare operand, NOT over AND, empty lists, calls
  with the wrong kind of name, and whatever exceeds a limit. Three observations: `COUNT(*)` needs
  no nesting level of its own, so it is read even at the deepest level; parentheses are never printed
  where the text would parse alike without them; and behind its length limit a string literal may still
  go on with doubled quotes. Apart from what the emitter writes, a lexical grammar says which texts are
  tokenized without an error and into what, and any line breaks and comments in place of blanks leave an
  expression what it is. Expressions are also evaluated, on values that carry their scalar type; what is
  checked without an error evaluates to null or to a value of the announced type. Two exceptions, each with
  its exact condition: the ELSE of a CASE is not checked against its THEN branches, and a comparison is
  announced as never null although it is null when an operand is.
- `writer/`: the Kafka to Iceberg logger writer as a transition system with crashes, failed commits and
  commits that land although reported as failed, at once or after a restart, and the writer process as a
  class whose methods are steps of it. After a restart with marks, exactly the marked partitions are assigned; partitions
  without a mark are not read by that process.
- `dag/`: topological sorting, one DAG run as interleaved steps of task futures, cron catch-up, the exact
  conditions for gaps when catch-up is off, dispatch and manifest reconciliation.
- `stitch/`: the Vortex index and row fetch, the two file listings they rely on, mixed-radix bucketing,
  and cumulative merging. Nothing ties an index file to its data file but their places in two sorted
  listings; `PairedIff` says when these agree. The Spark
  driver and the Rust crate reduce the same 64-bit hash differently (absolute signed value against
  unsigned value), and `ResiduesAgree` says for which hashes they nevertheless agree.
- `agent/`: the agent loop's event stream and its translation to UI message chunks, with reattaching.
- `runner/`: the sandbox runner's line splitter and bounded log ring.
- `publish/`: versions of published logger SDKs.
- `common/`: options and results, decimal numbers, string order, grouping by a key.

What the source updates in place is a class, an array or a loop here, and each such method is proved against a
function or relation whose properties are then proved as lemmas. Clocks, the network, databases,
object storage and model calls are parameters: maps, sequences, outcomes chosen by the caller.

Assumptions: one writer process at a time, no consumer rebalance, no snapshot expiry, broker
timestamps present; a commit takes effect only on top of the snapshot it was prepared against, so a
client that rebases a late commit on a newer snapshot is outside the model; a schedule is fixed; a file
read by row indices returns rows in the order asked; a data file holds the written batches in order;
under a bucket prefix only the writer's two files carry their names; DAG content is determined by path
and hash; model steps are not retried after they streamed; tool call ids are unique within a run.

## Model

| member | source | states |
|---|---|---|
| ParserTheorems.ParseIffSentence | packages/lattik-expression/src/parser/parse.ts:71-96 | the parser returns a tree exactly for the token lists that some concrete tree of the stratified grammar derives within the nesting and list limits, and it returns that tree's expression |
| ParserTheorems.RejectIffNoSentence | packages/lattik-expression/src/parser/parse.ts:71-96 | no tree is returned exactly when no derivation exists, and exactly then an error is recorded |
| ParserTheorems.Unambiguous | packages/lattik-expression/src/parser/parse.ts:4-13 | no token list stands for two expressions |
| ParserTheorems.PrintParseExact | packages/lattik-expression/src/emitter/emit-sql.ts:100-121 | for every expression: the tokens of its printed form parse back to it if and only if it is faithful (where parentheses are added, levels, limits, aggregate names, non-empty lists) |
| Soundness.Sound | packages/lattik-expression/src/parser/parse.ts:211-462 | at each grammar level, when no error is recorded the consumed tokens are a derivation of the returned tree |
| Completeness.Complete | packages/lattik-expression/src/parser/parse.ts:211-462 | every derivation followed by a token that cannot extend it is parsed to its tree, leaving exactly the rest |
| Printing.FaithfulPrints | packages/lattik-expression/src/emitter/emit-sql.ts:56-198 | a faithful expression prints to a well-formed concrete tree of its own level that strips back to it |
| Exactness.Tight | packages/lattik-expression/src/emitter/emit-sql.ts:107-121 | every derivation is at least as long as the printed form of what it stands for, and equally long only for faithful expressions, whatever weight the line breaks in literals and names have: parentheses are never printed needlessly and omitted parentheses are never harmless |
| RoundTrip.NoTreeIffError | packages/lattik-expression/src/parser/parse.ts:71-96 | a text has no tree exactly when tokenizing or parsing it reports an error |
| RoundTrip.TextTokens | packages/lattik-expression/src/parser/lexer.ts:159-433 | the emitted text of an expression whose names and literals survive the lexer, whose calls are words and in which no two minus signs meet is tokenized without error to the tokens of its printed form: string quoting, identifier quoting, keywords, numbers, blanks |
| RoundTrip.ParsedLeaves | packages/lattik-expression/src/parser/lexer.ts:214-333 | whatever the text, a tree that was parsed has, at every place, only numbers within the limit, strings that exceed theirs by quotes alone, and names without a double quote |
| RoundTrip.RoundTripExact | packages/lattik-expression/src/emitter/emit-sql.ts:12-198 | emitting and parsing the text gives back the expression, without errors, if and only if it is faithful, its literals and names survive the lexer (none written bare is a keyword to it), no minus stands directly in front of another anywhere in it, and the text is within the input limit; for every expression whose calls are words |
| RoundTrip.MeetingMinusesAreLost | packages/lattik-expression/src/parser/lexer.ts:207-211 | two minus signs in a row, wherever in the expression and on however many lines, open a comment, and the text is never read back as its expression: the comment takes a line break of a literal or name with it, or goes on to the end and leaves fewer tokens than the shortest derivation |
| RoundTrip.DoubleMinusIsLost | packages/lattik-expression/src/emitter/emit-sql.ts:56-98 | a minus directly over a minus at the root prints nothing but a comment and is rejected, whatever the calls in the operand, for every operand on one line |
| RoundTrip.KeywordColumnIsLost | packages/lattik-expression/src/emitter/emit-sql.ts:42-52 | a column named NULLS, FIRST or LAST is written bare and not read back |
| RoundTrip.QuoteInNameIsLost | packages/lattik-expression/src/emitter/emit-sql.ts:191-198 | no text at all is read as a column whose name or table has double quotes, however many and wherever; by ParsedLeaves the same holds of any larger expression around it |
| RoundTrip.OneQuoteSplitsName | packages/lattik-expression/src/emitter/emit-sql.ts:191-198 | a name with one quote is doubled by the emitter, which the lexer does not undo: it reads two names, and the text is rejected |
| PieceText.CutText | packages/lattik-expression/src/emitter/emit-sql.ts:56-198 | the emitted text is the concatenation of the pieces that carry the printed tokens |
| PieceReading.ReadPieces | packages/lattik-expression/src/parser/lexer.ts:196-433 | well spaced pieces, no two minus signs in a row among them, are tokenized one by one, in order |
| Lexemes.TokenizedIffProper | packages/lattik-expression/src/parser/lexer.ts:159-433 | a text is tokenized without an error if and only if it has at most 1,048,576 characters and is written by the lexical grammar: numbers, strings, quoted names, words and symbols within their limits, none continued by what follows it, with any blanks, tabs, line feeds, carriage returns and comments between, or nothing |
| Lexemes.ProperIsRead | packages/lattik-expression/src/parser/lexer.ts:196-433 | such a text is tokenized into the meanings of its lexemes in order: a word is a type right behind AS if it names one in any case, else a keyword if it names one in any case, else an identifier |
| Layout.ReadLaid | packages/lattik-expression/src/parser/lexer.ts:196-212 | well spaced pieces with any separators in place of their blanks (characters or comments, over any number of lines) give the same tokens without an error; only behind a minus sign the separator begins with a character |
| Layout.LaidOutAlike | packages/lattik-expression/src/parser/parse.ts:71-96 | so an expression laid out over any number of lines, with or without comments, is parsed as on one line |
| Layout.OthersAreErrors | packages/lattik-expression/src/parser/lexer.ts:404-428 | any other character that begins no token is reported, wherever it stands |
| Layout.MinusSwallowed | packages/lattik-expression/src/parser/lexer.ts:207-211 | a comment right behind a minus sign takes the minus with it |
| Lexer.Tokenize | packages/lattik-expression/src/parser/lexer.ts:159-433 | the scanning loop yields the tokens and errors of the lexical specification, whose texts without an error and their tokens Lexemes.TokenizedIffProper and Lexemes.ProperIsRead describe, and ends with EOF |
| ParserClass.ParseAll | packages/lattik-expression/src/parser/parse.ts:75-92 | the imperative parser over a token array computes the specified tree and errors |
| ParserClass.Parser.ParseExpr | packages/lattik-expression/src/parser/parse.ts:211-223 | one more nesting level, given back on return; beyond 128 an error and no progress |
| ParserClass.Parser.OrExpr | packages/lattik-expression/src/parser/parse.ts:225-238 | advances `pos` and extends `errors` to exactly the specified state and returns the specified tree, `depth` unchanged |
| ParserClass.Parser.AndExpr | packages/lattik-expression/src/parser/parse.ts:240-253 | advances `pos` and extends `errors` to exactly the specified state and returns the specified tree, `depth` unchanged |
| ParserClass.Parser.NotExpr | packages/lattik-expression/src/parser/parse.ts:255-262 | advances `pos` and extends `errors` to exactly the specified state and returns the specified tree, `depth` unchanged |
| ParserClass.Parser.Comparison | packages/lattik-expression/src/parser/parse.ts:264-317 | advances `pos` and extends `errors` to exactly the specified state and returns the specified tree, `depth` unchanged |
| ParserClass.Parser.Addition | packages/lattik-expression/src/parser/parse.ts:348-364 | advances `pos` and extends `errors` to exactly the specified state and returns the specified tree, `depth` unchanged |
| ParserClass.Parser.Multiply | packages/lattik-expression/src/parser/parse.ts:366-382 | advances `pos` and extends `errors` to exactly the specified state and returns the specified tree, `depth` unchanged |
| ParserClass.Parser.Unary | packages/lattik-expression/src/parser/parse.ts:384-400 | advances `pos` and extends `errors` to exactly the specified state and returns the specified tree, `depth` unchanged |
| ParserClass.Parser.Primary | packages/lattik-expression/src/parser/parse.ts:402-464 | advances `pos` and extends `errors` to exactly the specified state and returns the specified tree, `depth` unchanged |
| ParserClass.Parser.IdentExpr | packages/lattik-expression/src/parser/parse.ts:466-487 | advances `pos` and extends `errors` to exactly the specified state and returns the specified tree, `depth` unchanged |
| ParserClass.Parser.FunctionCallExpr | packages/lattik-expression/src/parser/parse.ts:489-539 | advances `pos` and extends `errors` to exactly the specified state and returns the specified tree, `depth` unchanged |
| ParserClass.Parser.TryParseFilter | packages/lattik-expression/src/parser/parse.ts:541-549 | advances `pos` and extends `errors` to exactly the specified state and returns the specified tree, `depth` unchanged |
| ParserClass.Parser.TryParseWindow | packages/lattik-expression/src/parser/parse.ts:551-591 | advances `pos` and extends `errors` to exactly the specified state and returns the specified tree, `depth` unchanged |
| ParserClass.Parser.OrderByList | packages/lattik-expression/src/parser/parse.ts:593-600 | advances `pos` and extends `errors` to exactly the specified state and returns the specified tree, `depth` unchanged |
| ParserClass.Parser.OrderByItem | packages/lattik-expression/src/parser/parse.ts:602-620 | advances `pos` and extends `errors` to exactly the specified state and returns the specified tree, `depth` unchanged |
| ParserClass.Parser.WindowFrame | packages/lattik-expression/src/parser/parse.ts:622-630 | advances `pos` and extends `errors` to exactly the specified state and returns the specified tree, `depth` unchanged |
| ParserClass.Parser.FrameBound | packages/lattik-expression/src/parser/parse.ts:632-653 | advances `pos` and extends `errors` to exactly the specified state and returns the specified tree, `depth` unchanged |
| ParserClass.Parser.CaseExpr | packages/lattik-expression/src/parser/parse.ts:655-695 | advances `pos` and extends `errors` to exactly the specified state and returns the specified tree, `depth` unchanged |
| ParserClass.Parser.CastExpr | packages/lattik-expression/src/parser/parse.ts:697-710 | advances `pos` and extends `errors` to exactly the specified state and returns the specified tree, `depth` unchanged |
| ParserClass.Parser.ParseTypeName | packages/lattik-expression/src/parser/parse.ts:712-722 | advances `pos` and extends `errors` to exactly the specified state and returns the specified tree, `depth` unchanged |
| ParserClass.Parser.ExprList | packages/lattik-expression/src/parser/parse.ts:724-735 | advances `pos` and extends `errors` to exactly the specified state and returns the specified tree, `depth` unchanged |
| LruCache.TouchedIsNewest | packages/lattik-expression/src/parser/parse.ts:51-69 | one lookup or store turns the newest 256 of the unbounded recency list into the newest 256 of the next one |
| LruCache.Cache.Lookup | packages/lattik-expression/src/parser/parse.ts:51-59 | a hit moves its key to the newest place and changes no entry; the keys stay the newest 256 of the history |
| LruCache.Cache.Store | packages/lattik-expression/src/parser/parse.ts:61-69 | a new result becomes the newest entry, the oldest leaves a full cache, inputs over 8192 characters pass by; every entry stays right for its key |
| ParseCache.Parse | packages/lattik-expression/src/parser/parse.ts:71-96 | whatever was parsed before, the result is that of an uncached parse: the same errors and the same whole expression, every literal, name and flag of it, read off nodes that are shared by reference on a hit |
| TreeReading.TreeIsRead | packages/lattik-expression/src/ast/nodes.ts:1-255 | the tree of nodes determines the expression: reading it off gives every expression back |
| ParseCache.ServeAll | packages/lattik-expression/src/parser/parse.ts:44-96 | any sequence of parse-and-check requests under any schemas through one cache reports what a fresh tree would give |
| Checker.Node.Infer | packages/lattik-expression/src/checker/check.ts:373-385 | in-place checking of a tree, whatever types it carries, leaves the types and errors of the bottom-up pass over a fresh tree, which TypeSoundness and TypeLaws tie to evaluation |
| TypeSoundness.Sound | packages/lattik-expression/src/checker/check.ts:387-695 | every expression checked without an error, whose ELSE branches fit their THEN branches, evaluates on every row to null or to a value of its announced scalar, up to widening of numbers and of dates to timestamps; exactly of that scalar where no type is unknown and all branches of every CASE have one type, and never stuck where no type is unknown |
| TypeLaws.InferredIsSound | packages/lattik-expression/src/checker/check.ts:373-385 | the same of the type that in-place checking leaves on a node |
| TypeLaws.ElseFitsIff | packages/lattik-expression/src/checker/check.ts:566-597 | a value of the ELSE has the announced type of a CASE that was checked without an error if and only if the ELSE agrees with every THEN, which is not checked |
| TypeLaws.ElseIsNotChecked | packages/lattik-expression/src/checker/check.ts:587-590 | `CASE WHEN FALSE THEN 1 ELSE 'a' END` is announced as int64 without an error and gives a string |
| TypeLaws.IncompatibleBranchesAreReal | packages/lattik-expression/src/checker/check.ts:570-581 | an error at a CASE means two THEN branches that do not agree |
| TypeLaws.AgreeIffOneType | packages/lattik-expression/src/ast/data-types.ts:87-115 | two scalars agree exactly when one known scalar holds values of both |
| TypeLaws.OperatorErrorsAreReal | packages/lattik-expression/src/checker/check.ts:485-547 | a binary operator is reported exactly when it cannot be evaluated on values of its operands' scalars |
| TypeLaws.NegationErrorsAreReal | packages/lattik-expression/src/checker/check.ts:549-561 | a minus is reported exactly when it cannot be evaluated on values of its operand's scalar |
| TypeLaws.ColumnErrorsAreReal | packages/lattik-expression/src/checker/check.ts:449-483 | a column is reported exactly when the reference means no column, or several and names no table |
| TypeLaws.FunctionErrorsAreReal | packages/lattik-expression/src/checker/check.ts:599-621 | a function is reported exactly when it is not there or does not take so many arguments |
| TypeLaws.FilterErrorsAreReal | packages/lattik-expression/src/checker/check.ts:623-695 | a filter that is reported leaves the aggregate undecided as soon as one row gives it a value of its type |
| TypeLaws.WrongConditionsAreStuck | packages/lattik-expression/src/checker/check.ts:629-672 | a condition of COUNT_IF, SUM_IF or AVG_IF that is reported for its scalar leaves the aggregate undecided as soon as one row gives it a value of that scalar |
| TypeLaws.KnownStaysKnown | packages/lattik-expression/src/checker/check.ts:387-695 | without an error a node's scalar is known when those of its children are, unless a column, function, cast or aggregate leaves it open |
| TypeLaws.CaseReadsBranchesOnly | packages/lattik-expression/src/checker/check.ts:566-597 | operand and conditions never change the scalar of a CASE |
| TypeLaws.CaseOfOneType | packages/lattik-expression/src/checker/check.ts:566-597 | a CASE whose THEN and ELSE branches all have one scalar has that scalar |
| Nullability.NullsAreAnnounced | packages/lattik-expression/src/checker/check.ts:387-695 | in a world where computing never fails, an expression announced as not null is never null, if its comparisons have operands announced as not null |
| Nullability.ComparisonsOverlookNulls | packages/lattik-expression/src/checker/check.ts:516-540 | a comparison is null exactly when an operand is, and always announced as not null |
| Nullability.NotNullStays | packages/lattik-expression/src/checker/check.ts:387-695 | without an error and without a nullable operand a node is announced as not null, unless it may be null by itself |
| Checker.Node.InferKids | packages/lattik-expression/src/ast/visitor.ts:11-76 | children are visited in order and siblings keep their types |
| Typing.TreeWellFormed | packages/lattik-expression/src/ast/visitor.ts:11-76 | the walk reaches as many children at every node as the checker's rule for it reads |
| HighWaterMarks.ToSnapshotProperties | apps/logger-writer/src/hwm.rs:15-19 | one decimal text property per partition and no other |
| HighWaterMarks.CarriedMarks | apps/logger-writer/src/hwm.rs:15-43 | a summary written from marks reads back as exactly those marks |
| HighWaterMarks.ResolveFromSnapshots | apps/logger-writer/src/hwm.rs:24-43 | every resolved mark stands on some snapshot and no parsable mark of any snapshot exceeds it |
| HighWaterMarks.ResolveRecovers | apps/logger-writer/src/hwm.rs:24-43 | resolution gives the largest mark per partition of all commits, however they are spread over snapshots |
| WriteBatch.WritePartitioned | apps/logger-writer/src/iceberg_write.rs:127-210 | one file per occurring hour with exactly that hour's messages in order; all files together are the batch as a multiset |
| WriteBatch.PackedKeyShown | apps/logger-writer/src/iceberg_write.rs:334-352 | the packed key shows month, day and hour, and the year exactly when it is below 2^14 |
| WriteBatch.KeyIsTheHour | apps/logger-writer/src/iceberg_write.rs:334-341 | for such years two instants share a key exactly when they share year, month, day and hour |
| ExactlyOnce.ExactlyOnceDelivery | apps/logger-writer/src/writer.rs:57-200 | in every state of every run of appends, receives, flushes of any outcome, late landings of commits reported as failed, crashes and restarts, the rows are exactly the decodable messages up to each partition's mark, each once |
| ExactlyOnce.StepKeeps | apps/logger-writer/src/writer.rs:66-200 | every step keeps buffer, pending marks, positions and group offsets exact |
| ExactlyOnce.FlushExact | apps/logger-writer/src/writer.rs:138-180 | the buffer is exactly what completes the table up to the merged marks |
| ExactlyOnce.RestartKeeps | apps/logger-writer/src/writer.rs:45-58 | resuming one past the resolved marks, or at the group offset or the beginning without one, skips and repeats nothing |
| ExactlyOnce.LandKeeps | apps/logger-writer/src/writer.rs:148-162 | a commit that lands after its process is gone, even behind a restart, completes the table or is turned down |
| ExactlyOnce.UncheckedLandingRepeats | apps/logger-writer/src/writer.rs:148-162 | the catalog's check is needed: for every message a run of an unresolved flush, a restart, a receive and a flush reaches a state in which the late commit, taken unchecked, puts the message into the table twice |
| ExactlyOnce.StepGrows | apps/logger-writer/src/writer.rs:66-200 | no step removes a row or moves a mark back |
| ExactlyOnce.CaughtUp | apps/logger-writer/src/writer.rs:66-180 | a message below the position of a running writer with an empty buffer is in the table once |
| LoggerWriter.Writer.Start | apps/logger-writer/src/writer.rs:45-64 | resolves the marks and takes up exactly the marked partitions one past their marks, or all subscribed ones when there is no mark |
| LoggerWriter.Writer.OnMessage | apps/logger-writer/src/writer.rs:73-118 | buffers a decodable message and raises its partition's mark, skips an undecodable one |
| LoggerWriter.Writer.Flush | apps/logger-writer/src/writer.rs:138-180 | does what the transition system's flush does for each way the commit can end; a failure ends the process |
| LoggerWriter.Writer.LateCommit | apps/logger-writer/src/writer.rs:148-162 | a commit of an earlier process takes effect only on top of the snapshot it was prepared against |
| LoggerWriter.Writer.Turn | apps/logger-writer/src/writer.rs:66-135 | one turn of the select loop takes exactly the steps of its event: a message is received and at the row limit flushed, a receive error changes nothing, the interval flushes whatever is buffered; behind an interval that leaves the process running the buffer is empty and, in every run, every decodable message below the positions is in the table once |
| LoggerWriter.SeekToHwm | apps/logger-writer/src/writer.rs:182-200 | assigns mark plus one to every marked partition |
| TopoSort.TopologicalSort | apps/web/src/lib/dag-topology.ts:8-41 | returns a permutation with dependencies first exactly when ids are unique, dependencies known and no walk along dependencies returns to its start; otherwise the first unknown dependency or the cycle error |
| TaskGraph.StuckHasCycle | apps/web/src/lib/dag-topology.ts:37-39 | tasks that all wait for one another contain a cycle |
| TaskGraph.OrderedAcyclic | apps/web/src/lib/dag-topology.ts:3-7 | an order with dependencies first excludes cycles |
| DagRun.LookupsHit | apps/web/src/workflows/dag-runner.ts:119-133 | all dependency futures are found when futures are created if and only if dependencies come first |
| DagRun.Spawn | apps/web/src/workflows/dag-runner.ts:119-133 | creates one future per task in order, each waiting for what its lookups returned |
| DagRun.LaunchSafety | apps/web/src/workflows/dag-runner.ts:304-348 | under every interleaving a launched task has all direct dependencies ended succeeded, no honoured row, and is launched once |
| DagRun.Progress | apps/web/src/workflows/dag-runner.ts:135-141 | while a task is unsettled some step can be taken |
| DagRun.RunsEnd | apps/web/src/workflows/dag-runner.ts:135-141 | no run takes more than two steps per task |
| DagRun.Confluence | apps/web/src/workflows/dag-runner.ts:98-168 | all finished runs agree on every status, every row and the set of launched tasks |
| DagRun.FailedAncestor | apps/web/src/workflows/dag-runner.ts:326-331 | every skipped task has a failed ancestor along its dependencies |
| DagRun.Overall | apps/web/src/workflows/dag-runner.ts:137-141 | the run succeeds exactly when every task succeeded, and the failed tasks are listed |
| DagRun.RespawnIsFixedPoint | apps/web/src/workflows/dag-runner.ts:188-220 | re-running on the rows of a finished run launches nothing and reproduces every status |
| DagRun.PartialClear | apps/web/src/workflows/dag-runner.ts:312-340 | after clearing any rows, surviving succeeded and failed tasks are kept and not launched; every other task runs exactly when all its dependencies now succeed |
| DagRun.LoadExistingTerminalStatuses | apps/web/src/workflows/dag-runner.ts:194-220 | the status of the highest terminal attempt per task |
| DagRun.LatestIsHighest | apps/web/src/workflows/dag-runner.ts:203-218 | the kept row is a terminal row of the task that no other exceeds |
| DagRun.SingleAttempts | apps/web/src/workflows/dag-runner.ts:188-220 | with one attempt row per task, as this runner writes them, a task's loaded status is its row if that ended and none otherwise |
| CatchUp.MissedBoundaries | apps/web/src/lib/dag-scheduler.ts:45-97 | a tick enqueues the boundaries behind bookmark, start date or latest past boundary up to now or the cap |
| CatchUp.CatchUpGapFree | apps/web/src/lib/dag-scheduler.ts:45-125 | with catchup on, after any overlapping, capped or crashing ticks the rows are exactly the boundaries in (startDate, M], M at or after the bookmark |
| CatchUp.CaughtUp | apps/web/src/lib/dag-scheduler.ts:84-125 | once an uncapped tick at the latest clock has inserted, exactly everything due is enqueued |
| CatchUp.ManyTicksOneTick | apps/web/src/lib/dag-scheduler.ts:12-17 | k capped ticks enqueue the first k times 525,600 of what one uncapped tick would |
| FireOnce.FirstTickFiresOnce | apps/web/src/lib/dag-scheduler.ts:63-77 | without catchup a fresh DAG fires once, for its latest past boundary |
| FireOnce.GapsLieBetweenFirings | apps/web/src/lib/dag-scheduler.ts:45-125 | without catchup, after any overlapping, capped or crashing ticks, every row is joined to a firing at or before it, and the rows have no gap if and only if nothing is missing between two firings of ticks that found no bookmark |
| FireOnce.NeverGappedIffCareful | apps/web/src/lib/dag-scheduler.ts:63-125 | without catchup, a run never has a gap if and only if each tick that found no bookmark sees, when it inserts, a run at its boundary or right beside it, or none at all |
| FireOnce.CalmTicksLeaveNoGap | apps/web/src/lib/dag-scheduler.ts:97-125 | ticks one at a time, none beginning without a bookmark once a run exists, never leave a gap and fire once |
| FireOnce.OverlapLeavesGap | apps/web/src/lib/dag-scheduler.ts:63-125 | two first ticks that overlap leave a boundary behind the bookmark out |
| FireOnce.CrashLeavesGap | apps/web/src/lib/dag-scheduler.ts:97-125 | so does a first tick that dies between its insert and its bookmark, without any overlap |
| Dispatch.AtMostMaxActive | apps/web/src/lib/dag-scheduler.ts:132-226 | with ticks that do not overlap there are never more than maxActiveRuns running |
| Dispatch.OverlapBound | apps/web/src/lib/dag-scheduler.ts:132-226 | with at most n ticks in flight at a time there are never more than n times maxActiveRuns running |
| Dispatch.ExclusiveClaims | apps/web/src/lib/dag-scheduler.ts:176-222 | however ticks overlap, two starts of one run have a rollback to queued between them |
| Dispatch.RunsAreTracked | apps/web/src/lib/dag-scheduler.ts:176-222 | however ticks overlap, a run is running only if the last thing that happened to it was a start, and queued only if it was never started or rolled back since |
| Dispatch.OverlapReachesBound | apps/web/src/lib/dag-scheduler.ts:132-172 | for every limit and every n that bound is reached, by n ticks that all count before any of them claims |
| Reconciler.Database.ReconcileDags | apps/web/src/lib/dag-reconciler.ts:66-194 | wanted rows carry the manifest's content and are active, the branch's other rows are archived, other branches are untouched; a missing manifest changes nothing |
| Reconciler.ActiveRowsAreTheManifest | apps/web/src/lib/dag-reconciler.ts:177-194 | the branch's active rows are exactly those of the loadable manifest entries |
| Reconciler.RowIdsDiffer | apps/web/src/lib/dag-reconciler.ts:31-39 | within a branch different DAGs, and across branches the same DAG, have different row ids |
| Reconciler.SecondPassChangesNothing | apps/web/src/lib/dag-reconciler.ts:66-194 | a second pass over the same manifest changes no row |
| Reconciler.UnchangedStep | apps/web/src/lib/dag-reconciler.ts:99-107 | an active row with the entry's path and hash already is what the entry would upsert |
| VortexIndex.WriteBucket | lattik-stitch/crates/lattik-format-vortex/src/writer.rs:14-103 | the data file is the batches in order; the index has one entry per row with its running offset, sorted by key; nothing without batches |
| VortexIndex.ProbeIndex | lattik-stitch/crates/lattik-format-vortex/src/reader.rs:193-256 | the matching entries with encoded ids in file order, which for integer keys are those with the key asked for, in the list, or between both ends of the range, these included; an error exactly without files or for a match beyond 32 bits |
| VortexIndex.FetchRows | lattik-stitch/crates/lattik-format-vortex/src/reader.rs:258-344 | row i is the row id i names, for any order and repetition; an error exactly for no ids or an id that names no row |
| VortexIndex.Reorder | lattik-stitch/crates/lattik-format-vortex/src/reader.rs:322-333 | the reorder array inverts the concatenation's positions |
| VortexIndex.AllHitsScan | lattik-stitch/crates/lattik-format-vortex/src/reader.rs:141-256 | for index files that belong to the data files one by one, the hits over all of them lead to exactly the scanned rows that satisfy the filter |
| VortexIndex.LookupFiles | lattik-stitch/crates/lattik-format-vortex/src/reader.rs:193-344 | probing the index files and fetching from the data files gives what the hits name; when the files belong together one by one, exactly the scanned rows whose integer key is asked for (equal, in the list, or between both ends, these included), each with the key its hit announced |
| BucketListing.ListFiles | lattik-stitch/crates/lattik-format-vortex/src/reader.rs:73-108 | all files of one name, sorted by path |
| BucketListing.PairedIff | lattik-stitch/crates/lattik-format-vortex/src/reader.rs:73-108 | the data listing and the index listing name the same directories place for place if and only if every directory holds both files and both names sort the directories alike |
| BucketListing.SortAlikeIff | lattik-stitch/crates/lattik-format-vortex/src/reader.rs:102 | both names sort the directories alike if and only if no directory lies below another one whose two files it comes between |
| BucketListing.Lookup | lattik-stitch/crates/lattik-format-vortex/src/reader.rs:73-344 | over two separate listings, when they pair up: exactly the scanned rows whose integer key is asked for, each with the key its hit announced |
| BucketListing.PairingDecides | lattik-stitch/crates/lattik-format-vortex/src/reader.rs:73-344 | over directory listings that pair up every valid store answers every filter like the scan; over any listings that do not, some valid store and some filter have a hit that leads nowhere or to another row, or hits that are not the scanned rows that match |
| BucketListing.DataOnlyShifts | lattik-stitch/crates/lattik-format-vortex/src/writer.rs:48-140 | with one directory left without its index file, every index behind it is used with the data file one place too early |
| BucketListing.DataOnlyAnswersWrongly | lattik-stitch/crates/lattik-format-vortex/src/reader.rs:73-344 | a store with such a directory in which asking for one key gives the row of another, without an error |
| BucketListing.NestedSwaps | lattik-stitch/crates/lattik-format-vortex/src/reader.rs:102 | a directory "f" below another one swaps the two in one listing only |
| VortexIndex.RowIdsInvert | lattik-stitch/crates/lattik-format-vortex/src/reader.rs:111-125 | encoding succeeds exactly for 32-bit halves and decodes to them |
| VortexIndex.DecodedReencode | lattik-stitch/crates/lattik-format-vortex/src/reader.rs:111-125 | every 64-bit id is the encoding of its halves |
| VortexIndex.ScanData | lattik-stitch/crates/lattik-format-vortex/src/reader.rs:141-191 | the rows of all buckets in order, or an error without files |
| Bucketing.HierarchicalBucketId | lattik-stitch/crates/lattik-stitch-core/src/bucket.rs:8-27 | the u32 loop gives the mixed-radix value modulo 2^32, and exactly, below the product, when the product fits |
| Bucketing.DigitsValue | lattik-stitch/crates/lattik-stitch-core/src/bucket.rs:1-27 | every number below the product is the value of a residue vector |
| Bucketing.ValueDigits | lattik-stitch/crates/lattik-stitch-core/src/bucket.rs:1-27 | no two residue vectors have the same value |
| Bucketing.AlignIsDirect | lattik-stitch/crates/lattik-stitch-core/src/bucket.rs:36-46 | aligning a fine bucket is bucketing directly under levels whose leading level divides the fine one and whose others agree |
| Bucketing.NextPowerOf2 | k8s/spark/drivers/lattik_driver_utils.py:55-61 | the smallest power of two at or above n within 1 and 4096 |
| Bucketing.DetermineBucketLevels | k8s/spark/drivers/lattik_driver_utils.py:82-105 | one to three powers of two that multiply out to the smallest power of two at or above the wanted number of buckets, 4096 at most; each split is into two factors that are equal or of which the first is twice or half the second |
| Bucketing.SparkBucket | k8s/spark/drivers/lattik_driver_utils.py:108-140 | the Spark column is the same mixed-radix value of its residues |
| Bucketing.ResiduesAgree | k8s/spark/drivers/lattik_driver_utils.py:128-130 | for every power-of-two level up to 2^63, Spark's absolute signed residue equals the unsigned one exactly for non-negative hashes or when twice the hash is a multiple of the level |
| Cumulative.MergeCumulative | k8s/spark/drivers/lattik_driver_utils.py:147-229 | the full outer join of two keyed frames, each column combined by its strategy; the delta itself for a first load |
| Cumulative.FoldKeys | k8s/spark/drivers/lattik_driver_utils.py:167-229 | the fold over days has the union of all keys |
| Cumulative.SumIsBatch | k8s/spark/drivers/lattik_driver_utils.py:181-186 | over two or more days a sum or count is the total over all days with nulls as 0 |
| Cumulative.ExtremeIsBatch | k8s/spark/drivers/lattik_driver_utils.py:187-193 | a maximum or minimum is the extreme over all days that have a number, null if none has |
| Cumulative.ListIsBatch | k8s/spark/drivers/lattik_driver_utils.py:198-210 | over two or more days a list is the first maxLength elements of the newest-day-first concatenation |
| Cumulative.SingleDayIsNotCut | k8s/spark/drivers/lattik_driver_utils.py:163-168 | a first load is not cut to maxLength, the next merge is |
| Cumulative.ActivityIsSeen | k8s/spark/drivers/lattik_driver_utils.py:212-218 | a key has its activity bit set exactly when some day has it |
| Cumulative.ClassifiedAsSum | k8s/spark/drivers/lattik_driver_utils.py:179-181 | an aggregate is merged as a sum exactly when its text contains "count" or "sum", in any case |
| Cumulative.MeantAggregate | k8s/spark/drivers/lattik_driver_utils.py:179-193 | a call of sum or count is merged as a sum, one of max as a maximum exactly when its argument has neither "count" nor "sum" in it, and one of min as a minimum exactly when it has no "max" either |
| Cumulative.MinMergedAsMax | k8s/spark/drivers/lattik_driver_utils.py:187-193 | a minimum merged as a maximum, as min(max_temp) is, is the minimum if and only if all days with a number have the same one |
| Cumulative.MaxOfCountIsSummed | k8s/spark/drivers/lattik_driver_utils.py:180-189 | so a maximum over such a text folds to the total; for numbers that are not negative this is the maximum if and only if some day has a number and at most one day a positive one |
| Cumulative.TwoCounts | k8s/spark/drivers/lattik_driver_utils.py:180-189 | two days with positive numbers fold to their sum, which is not their maximum |
| Cumulative.BackfillFamily | k8s/spark/drivers/lattik_table_backfill.py:108-228 | every committed load is the fold over the days with data up to it for families with a lifetime window, and only that day's delta for others |
| LoopEvents.AgentLoop | apps/agent-service/src/workflows/agent-loop.ts:1043-1096 | the loop writes the events of its turns in order, ends with a turn without tool calls or at the limit, and closes with loop-finish |
| LoopEvents.Translator.Transform | apps/agent-service/src/lib/loop-event-to-ui-chunk.ts:62-133 | the closure's variables and the forwarded chunks follow the specified translation; output before the cursor is suppressed |
| LoopEvents.Translator.TransitionToIteration | apps/agent-service/src/lib/loop-event-to-ui-chunk.ts:42-60 | closes the previous step and opens the next, unless already in it; TurnSteps.StepPerTurn says what that comes to |
| TurnSteps.StepPerTurn | apps/agent-service/src/lib/loop-event-to-ui-chunk.ts:9-136 | for every run with a positive maxLoopSteps, the chunks have one step per turn taken, and between the start and the finish of the k-th step stand exactly the text, tool inputs and tool outputs of turn k; nothing is said outside of a step |
| TurnSteps.OneStartPerTurn | apps/agent-service/src/lib/loop-event-to-ui-chunk.ts:42-60 | there are as many step starts as turns taken |
| LoopEvents.Reattach | apps/agent-service/src/lib/loop-event-to-ui-chunk.ts:25-32 | for every stream and cursor the output of the first n events followed by the reattached output is the uninterrupted output |
| ChunkGrammar.RunsTranslateWell | apps/agent-service/src/lib/loop-event-to-ui-chunk.ts:34-136 | the chunks of a run form one complete, well-bracketed stream exactly when maxLoopSteps is positive |
| ChunkGrammar.ContentKept | apps/agent-service/src/lib/loop-event-to-ui-chunk.ts:62-133 | every stream keeps all deltas, tool inputs and outputs in order, none twice |
| LogRing.LogServer.Write | apps/web/src/workflows/dag-runner.template.js:97-118 | for every sequence of chunks the lines broadcast per stream are the complete lines of all it wrote, and the ring is the window over all lines |
| LogRing.Ring.Push | apps/web/src/workflows/dag-runner.template.js:66-78 | the ring stays the longest suffix within 65,536 units or the last line alone, with `ringBytes` its real total |
| LogRing.LinesRebuild | apps/web/src/workflows/dag-runner.template.js:105-112 | lines and rest are the text cut at its newlines |
| LogRing.LinesContinue | apps/web/src/workflows/dag-runner.template.js:105-112 | cutting is independent of chunk boundaries |
| LogRing.WindowUnique | apps/web/src/workflows/dag-runner.template.js:66-78 | there is only one such window |
| SdkVersion.SigsEqual | apps/web/src/lib/logger-sdk-version.ts:16-28 | equal only for the same columns, and for unique names always then, in any order |
| SdkVersion.DiffBump | apps/web/src/lib/logger-sdk-version.ts:37-50 | major exactly when a name is lost or has another last type, else minor exactly when a name is new |
| SdkVersion.KeepsIffColumns | apps/web/src/lib/logger-sdk-version.ts:37-50 | for schemas without repeated names, which validation demands, that is exactly a lost (name, type) column |
| SdkVersion.RepeatedNameHidesLoss | apps/web/src/lib/logger-sdk-version.ts:38-39 | with a repeated name, dropping its earlier type counts as no change |
| SdkVersion.FormatParses | apps/web/src/lib/logger-sdk-version.ts:60-84 | a formatted version, also with text behind it, parses to its three numbers |
| SdkVersion.NumbersFollowColumns | apps/web/src/lib/logger-sdk-version.ts:37-84 | for unique names, the version behind a change has the next major number and zeros if a column is lost, else the next minor number and patch 0 if one is added, else the next patch number |
| SdkVersion.DecidePublishAction | apps/web/src/lib/logger-sdk-version.ts:100-119 | created without a version, unchanged for the same schema, else the bumped version |
| SdkVersion.Registry.Publish | apps/web/src/lib/logger-sdk-version.ts:100-119 | over any history of publishes versions strictly increase and, within a major number, every name keeps its last type |
| SdkVersion.PublishedColumnsStay | apps/web/src/lib/logger-sdk-version.ts:100-119 | in such a history of schemas without repeated names, no release loses a (name, type) column of an earlier one with the same major number |
| SdkVersion.NextRelease | apps/web/src/lib/logger-sdk-version.ts:60-119 | a release derived from the last one extends a faithful history, whatever the new schema |

## Left out

- RoundTrip.RoundTripExact: asks that calls are named by single words. A call's name is written raw, so any text at all could stand there. On tokens PrintParseExact holds for all expressions.
- RoundTrip.DoubleMinusIsLost: that the text is rejected outright, not only read as something else, is stated for an operand printed on one line; a line break inside a literal or a quoted name ends the comment.
- Layout.ReadLaid: asks that no comment begins right behind a minus sign, which would be the first of three then; MinusSwallowed says what happens.
- TypeSoundness.Sound: asks that the ELSE of every CASE fits its THEN branches, which the checker does not check; ElseFitsIff says exactly when that matters. Operands the checker does not look at (conditions of WHEN, operands of AND, OR, NOT, BETWEEN, IN and LIKE, comparisons of different scalars) are evaluated whatever their scalar.
- TypeLaws.KnownStaysKnown: speaks of one node. An arithmetic operator on NULL is left unknown by the checker and therefore outside.
- What an engine computes: digits, texts, rounding and overflow are parameters of evaluation.
- ExactlyOnce.ExactlyOnceDelivery: does not model brokers that report no timestamp, for which the consumer's clock decides the hour.
- Source positions and the texts of error messages; `loc` fields and keyword token texts are dropped.
- Upper and lower case outside ASCII, and lengths in UTF-16 units where a character takes two.
- The emitter's `pretty` option, which the emitter stores and never reads.
- The built-in function table of the checker: signatures come with the schema.
- Column values of written rows beyond their origin; zero-padded texts of date and hour.
- Offsets at the very top of the 64-bit range, where mark plus one would overflow.
- Database failures inside the DAG runner's bookkeeping steps, watchdog timing, hooks and sandboxes: a task's outcome is a parameter.
- Orphan reconciliation, manual triggers and cancelling beyond "a run may end at any time".
- Four or more key columns in the Spark bucketing, and unknown merge strategies.
- VortexIndex.FetchRows: does not model a request for more than 2^32 ids at once, where the positions of the reorder array would wrap.
- The size estimate from row counts behind the level planning, and the hash function.
- Replacing merges and averages in cumulative columns beyond their definition.
- Redaction of secrets before lines are split, and the HTTP side of the log server.
- Conversation persistence, prompts and tool dispatch of the agent loop.
- Counts of archived rows and error messages of the reconciler; timestamps of rows.
- Packages whose latest version carries no schema.

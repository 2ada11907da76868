# SQLog: ingestion, search expressions, query tasks and pages

SQLog collects log entries in a linked list of chunks, stores the chunks in a database, compiles search
expressions for two back ends and serves results in pages. This project models the four parts of it whose
correctness is not visible in any one function, and proves what they are for.

**Ingestion** (`Protocol`, `Interleavings`, `Pointers`, `EpochBounds`, `SmallRuns`, `SoloPuts`, `Ledger`,
`FlushProgress`, `Ingester`). Any number of
goroutines put entries into a list of chunks with atomic counters and a one-way lock flag, while one goroutine
locks, stores, retries and discards chunks. `Protocol` is a transition system with one step per memory access and
its invariant, `Interleavings`, `Pointers` and `EpochBounds` have the statements about every run of it, `SmallRuns`
builds concrete runs step by step.
`Ledger` takes each Put as one step, for statements about whole runs of the routine check and the shutdown with
any pattern of storage failures, and `FlushProgress` says what is sure to be stored. `SoloPuts` connects the two: a call
that runs alone, step by step, does what `Ledger` says. `Ingester` holds the objects themselves, updated in place, each method of
which computes the function of `Ledger` with its name.

**Search expressions** (`ExprCalls`, `ExprSpec`, `ExprParser`, `ExprGrammar`, `QueryText`, `QueryParse`, `QueryErrors`,
`ExprPrinter`, `MemoryExpr`, `SqliteExpr`, `SqlReader`, `BackEnds`, `TextAtoms`). A byte scanner drives a builder; one builder makes a predicate, the other
SQL with placeholders. The methods of `ExprParser` compute the functions of `ExprSpec`; `ExprGrammar` says what
comes out of every accepted input. `QueryText` says how a query is written and which expression it stands for,
`QueryParse` proves that the parser reads it so, `QueryErrors` has the texts it rejects and the place it names, and
`ExprPrinter` writes any expression as a query. `SqlReader` cuts a text with its bound
arguments into words and parses them as conditions joined by AND and OR; `BackEnds` reads the emitted SQL with it
and compares; `TextAtoms` compares single text conditions.

**Globs** (`Wildcard`, `GlobSearch`, `GlobZeroOrOne`, `GlobExactlyOne`). The backtracking matcher of the in-memory
back end, and for which patterns it is exact: with `?` as at most one byte, and with `?` as exactly one byte.

**Query tasks** (`TaskRuns`, `Scheduler`). `TaskRuns` interleaves the API, the scheduler goroutine and one
goroutine per dispatched task, one atomic operation at a time; `Scheduler` is one dispatch round.

**Pages** (`Paging`). A page is collected from several databases, each asked with its own LIMIT, and compared
with the merge of everything that matches.

Bytes are modelled as characters, float64 as real, epochs and counters as unbounded integers.

## Where the code does not do what it says

- `?` in a glob is documented as one character. The matcher finds every match in that reading, but also accepts
  strings that leave no character for a `?`: `a?` accepts `a` (`Wildcard.AcceptsNone`). It is exact in that reading for a pattern
  if and only if the pattern has no `?`, or what follows the first `?` is wildcards and then one and the same
  literal, at least once, to the end (`GlobExactlyOne.ExactIffAllTaken`).
- With `?` as at most one character every answer `true` is a match, but `?a` misses `a` (`Wildcard.MissesAMatch`):
  a `?` gives back its byte only at a mismatch. It is exact in this reading if and only if behind every `?` there is
  no literal, or, stars aside, first one literal once or more and then, with wildcards or not before it, a different
  one (`GlobZeroOrOne.ExactIffGivesBack`). With a single `?` that is: no literal behind it, or two different ones
  (`GlobZeroOrOne.SingleMark`).
- `Ready` does not settle a chunk: a Put that has passed the check of `locked` may still book and store.
  `Interleavings.LossIffStraggler` says exactly when an entry can be missed, `SmallRuns.LossIsReached` is a run in
  which it is.
- `epochEnd` of a chunk is raised by a single compare-and-swap, so a chunk can be stored under an end earlier than
  its last entry (`EpochBounds.EndFallsShort`). It bounds all entries at every moment if and only if no such
  compare-and-swap fails against an earlier epoch (`EpochBounds.CoveredIff`).
- `epochStart` 0 means not set, so an entry of second 0 is forgotten by the next one (`EpochBounds.StartRises`), and
  after four lost compare-and-swaps a Put gives up (`EpochBounds.GivingUpIsReached`). It bounds all entries at every
  moment if and only if no Put gives up against a later start, and none of a positive epoch replaces a 0 that an
  entry has set (`EpochBounds.StartCoveredIff`); without entries of second 0 only giving up counts
  (`EpochBounds.StartCoveredUnlessGivenUp`).
- The in-memory back end applies AND and OR from left to right, SQL gives AND precedence: `f:a OR f:b AND f:c` differs
  (`BackEnds.TheyDiffer`). Over distinct conditions the built predicate and the emitted SQL agree for every assignment
  of truth to the conditions exactly when no AND follows an OR on the same level (`BackEnds.AgreeExactly`). Where
  conditions repeat or exclude each other they may agree without that.
- A backslash does not escape a parenthesis, although the comment at expr.go:122 shows it so: the group opens all the
  same, and the backslash is left over as a word (`QueryErrors.EscapedParenOpens`). Outside of quotation marks a
  parenthesis cannot be written.
- An AND or OR behind a colon is taken for the operator, and leaves the field to the next word: `level:or x` asks `level`
  for `x` (`QueryText.Carried`, proved of the parser in `QueryParse.ParseText`).
- A text condition means the same in memory and in SQL, for every value, if and only if it has no wildcard or all its
  question marks are taken in the sense above (`TextAtoms.TextAtomsAgreeIff`).
- The number of chunks to prepare behind a stored one is `Chunks + 1` in a uint8: with 255 chunks none is prepared. The
  configured number of spare chunks is there at all times if and only if it is less than 255
  (`FlushProgress.SparesIff`).
- After a failed callback a task can still be finished if and only if its database is found closed and nobody has
  canceled the task meanwhile (`TaskRuns.RetryFinishesIff`), and at any moment of a run if and only if it is finished,
created, or processing and claimed by a dispatch that is not a retry (`TaskRuns.FinishableIff`). With the database open it stays `processing`, unless it
  is canceled (`TaskRuns.StuckStays`, and a run in `TaskRuns.StickingIsReached`); the limit of three retries is never
  reached.
- A dispatch round starts more tasks than `MaxRunningTasks` leaves free exactly when more open databases have tasks
  than there are free places (`Scheduler.QuotaIsKeptIff`).
- Pages have no gaps exactly for page sizes up to 100 (`Paging.GapFreeIff`).
- A request behind a row of second 0 is taken for one from the current time. Following the pages may then never end
  (`Paging.WalkRepeats`); where it ends, the pages are complete if and only if no request strays in this way
  (`Paging.WalkEnumerates`).

## Model

| member | source | states |
|---|---|---|
| Protocol.InvNext | chunk.go:148-189 | every step of any Put or of the flusher keeps the invariant: each used slot has one owner, `write` counts the completed slots, `size` their bytes, chunks before the pointers are closed; and no step undoes anything |
| Interleavings.RunInv | chunk.go:148-189 | the invariant holds in every state of every interleaving |
| Interleavings.RunLater | chunk.go:113-189 | over any stretch of a run counters only grow, the lock stays, slots keep their owner and, once stored, their entry |
| Interleavings.WriteBound | chunk.go:155-163 | `write` never exceeds the bookings nor the capacity |
| Interleavings.ReadySettles | chunk.go:113-121 | when Ready's separate loads of `write`, `book` and `locked` make it true, all slots below the `write` it loaded are complete |
| Interleavings.ReadyIsFinal | chunk.go:113-143 | those slots are filled, in every later List, and never change again |
| Interleavings.ReadyMeansListed | chunk.go:113-143 | a Put into the chunk that completed before Ready's first load is in every later List |
| Interleavings.LossIsConfined | chunk.go:113-163 | an entry stored in a chunk but missing from a List after a true Ready belongs to a Put that found the chunk unlocked before Lock and booked after Ready's first load |
| Interleavings.FullChunkLosesNothing | chunk.go:113-117 | a chunk found with `write` at its capacity loses nothing, ever |
| Interleavings.LossIffStraggler | chunk.go:141-163 | once a chunk is locked, some continuation stores an entry that the List of this moment misses if and only if the chunk is not full and some Put has passed the check of `locked` without having finished |
| Interleavings.RoutingHolds | ingester.go:117-125 | in every interleaving, although id and pointer are written separately and the pointer may move back, every chunk before writeChunk, before any used chunk and before any chunk booked on is locked or full |
| Interleavings.ClosedForever | chunk.go:131-133 | a closed chunk stays closed in the rest of the run |
| Interleavings.DroppedIsClosed | ingester.go:247-256 | in every interleaving a chunk with a later one seen in use, as Depth has seen behind any chunk that is dropped, is closed from then on |
| Interleavings.StoredExactlyOnce | ingester.go:117-125 | a finished Ingest has its entry in exactly one slot of one chunk, and that slot is counted |
| Pointers.IdNeverGoesBack | ingester.go:117-125 | in every interleaving writeChunkId never goes back, although every call may store its own, and writeChunk, which may go back, is never ahead of it |
| SoloPuts.IngestAlone | ingester.go:117-125 | from any state in which no call is under way, an Ingest that runs alone comes to its end, and the chunks, with every counter, size and epoch, and the write chunk are those Ledger's Put computes |
| SmallRuns.LossIsReached | chunk.go:113-163 | a run in which Ready answers true, and an entry stored afterwards is missing from the List of that moment |
| EpochBounds.CoveredIff | chunk.go:167-170 | at every moment of a run epochEnd covers the epochs of all calls past their update of it, if and only if no compare-and-swap of it fails against an earlier epoch |
| EpochBounds.CountedWithin | sqlite/storage_db.go:286 | then it bounds every counted entry, so what the storage takes over from the chunk is right |
| EpochBounds.EndFallsShort | chunk.go:167-170 | a run that fills a chunk, ready to be stored, whose epochEnd is earlier than the epoch of an entry in it |
| EpochBounds.StartCoveredIff | chunk.go:172-184 | at every moment epochStart is at most the epochs of all calls past their update of it, if and only if no call loses its last compare-and-swap against a later start, and no call of a positive epoch swaps out a 0 while a call of epoch 0 is past its update |
| EpochBounds.StartCoveredUnlessGivenUp | chunk.go:172-184 | in a run without entries of second 0, if and only if no call loses its last compare-and-swap so |
| EpochBounds.OnlyFirstRaises | chunk.go:174-183 | a call that has lost a compare-and-swap never raises the start: a 0 is only replaced at the first attempt |
| EpochBounds.GivingUpIsReached | chunk.go:174-183 | a run of five calls in which one loses four times, and its entry is counted before the start of its chunk |
| EpochBounds.StartRises | chunk.go:172-184 | a run that fills a chunk whose epochStart is later than the epoch of its first entry |
| Ledger.Defaults | ingester.go:72-94 | the configuration in force always has at least one chunk, a chunk size from 1 to 900 and a positive retry limit; a value in its range is kept, any other becomes 3, 900, 50 or 3 |
| Ledger.InitialIs | ingester.go:96-107 | the ingester starts with Chunks+1 empty chunks, both pointers at the first |
| Ledger.PutIs | chunk.go:148-189 | a Put goes to the first open chunk from its start, past closed chunks that at most count the attempt, or to a new chunk at the end; nothing else changes |
| Ledger.IngestKeeps | ingester.go:117-125 | Ingest keeps the ledger invariant |
| FlushProgress.BooksAreKept | ingester.go:117-125 | in every run nothing is behind the write chunk, whose last entry is the last one accepted; every chunk's size is the bytes of its entries, epochEnd their latest second, and epochStart their earliest unless one is second 0 |
| Ledger.FlushPassKeeps | ingester.go:212-244 | so does one pass of the flush loop, for any answer of the storage and of the age test |
| Ledger.DepthIsExact | chunk.go:76-87 | before shutdown the chunks with entries from flushChunk on are contiguous, and Depth is their number |
| Ledger.DropLoopIs | ingester.go:247-256 | the limiter discards exactly the excess oldest chunks, stores nothing, and leaves the limit |
| Ledger.DroppedAreClosed | ingester.go:247-256 | every discarded chunk held entries and was closed, so no later Put reaches it |
| Ledger.RoutineKeeps | ingester.go:211-259 | a routine check keeps the ledger and ends with at most MaxDirtyChunks dirty chunks |
| Ledger.QuitLoopIs | ingester.go:152-187 | the shutdown loop passes exactly the dirty chunks, in order, storing each or giving it up after its last attempt, and discards none |
| Ledger.ShutdownDrains | ingester.go:143-200 | for every failure oracle the shutdown ends at an empty chunk; all accepted entries are behind it, each chunk stored once or failed MaxFlushRetry+1 times; Close is called once, last |
| Ledger.RunKeeps | ingester.go:117-259 | any sequence of Ingest, flush passes, drops and routine checks keeps the ledger, extends the storage log and accepts exactly the given entries in order |
| Ledger.LedgerBalances | ingester.go:211-259 | after any such sequence, with any storage failures, the given entries are in order those of the chunks before flushChunk followed by those still in memory; each passed chunk was stored exactly once, or never and then either its retries ran out or it was discarded; calls are in id order |
| Ledger.HandedIsFinal | ingester.go:220-232 | what the storage was handed for a chunk is what that chunk holds ever after |
| FlushProgress.IdleIsLocked | ingester.go:233-243 | a pass over a chunk that is neither full nor locked ends the loop; old or too large, and with entries, the chunk is locked and so ready for the next check, with Chunks chunks behind it; otherwise nothing changes |
| FlushProgress.SealedIsTried | ingester.go:219-232 | a pass over a full or locked chunk makes one storage call with its content; stored, or failed once more than MaxFlushRetry, it is passed and the loop goes on, else it stays with one more retry |
| FlushProgress.FlushLoopDrains | ingester.go:212-244 | while the storage accepts, the loop stores exactly the run of full or locked chunks from flushChunk on, one call each, in order, and locks the chunk it stops at if that is old or too large |
| FlushProgress.OverdueIsStored | ingester.go:211-244 | a chunk that is full or locked, or old or too large at a check, is stored exactly once by the end of the next check, whatever Puts come between, if the storage accepts |
| FlushProgress.TwoChecksStoreAll | ingester.go:211-259 | two such checks store every entry accepted before them, and drop nothing |
| FlushProgress.SparesIff | ingester.go:224-231 | in every run of Puts and checks the configured number of chunks is ready behind flushChunk, if and only if that number is less than 255 |
| Ingester.Chunk.constructor | chunk.go:33-35 | an empty chunk, its capacity clamped to 1..900 |
| Ingester.Chunk.Next | chunk.go:43-46 | the successor, created if missing; the rest of the list is as before |
| Ingester.Chunk.Init | chunk.go:54-73 | the list is made that much longer, with empty chunks of the same capacity and consecutive ids |
| Ingester.Chunk.Ready | chunk.go:113-121 | full, or locked with all bookings written |
| Ingester.Chunk.Lock | chunk.go:131-133 | this chunk is locked, nothing else changes |
| Ingester.Chunk.List | chunk.go:141-143 | exactly the written entries, in order, none nil |
| Ingester.Chunk.Depth | chunk.go:76-87 | the length of the run of chunks with entries |
| Ingester.Chunk.Put | chunk.go:148-189 | the whole list afterwards, the chunk that took the entry, and whether that is another one |
| Ingester.Chunk.Fill | chunk.go:163-186 | the entry in its slot, epochs, size and `write` updated |
| Ingester.Ingester.constructor | ingester.go:66-113 | both pointers at the root of a list of Chunks+1 chunks |
| Ingester.Ingester.Ingest | ingester.go:117-125 | the state after Ledger's Ingest |
| Ingester.Ingester.TryFlush | ingester.go:220-223 | one storage call with the content of flushChunk, and a retry counted if it fails |
| Ingester.Ingester.FlushReady | ingester.go:219-232 | stored or out of retries: on to the next chunk; otherwise the loop ends |
| Ingester.Ingester.FlushPass | ingester.go:212-244 | one pass of the flush loop and whether it goes on |
| Ingester.Ingester.FlushAll | ingester.go:212-244 | the loop ends in the state of Ledger's FlushLoop, with its number of dirty chunks as measure |
| Ingester.Ingester.DoRoutineCheck | ingester.go:211-259 | terminates in the state of Ledger's Routine |
| Ingester.Ingester.Drop | ingester.go:248-255 | terminates in the state of Ledger's DropLoop |
| Ingester.Ingester.QuitPass | ingester.go:152-187 | one pass of the shutdown loop; a locked chunk with entries is always ready, so the branch for an unexpected state is never taken |
| Ingester.Ingester.Quit | ingester.go:143-200 | terminates, for every failure oracle, in the state of Ledger's Shutdown |
| ExprParser.ParseState.AddOperator | expr_parse_state.go:21-31 | an operator is sent only behind an item, AND if none was read |
| ExprParser.ParseState.CloseArray | expr_parse_state.go:33-111 | a range, or numbers and texts apart, or the error for a range that is not numeric |
| ExprParser.ParseState.SendArray | expr_parse_state.go:69-105 | the calls for the numbers and texts of an array, as one group with OR if there are both |
| ExprParser.ParseState.AddTermSingle | expr_parse_state.go:114-177 | a part of an array, an operator word, a number condition or a text term |
| ExprParser.ParseState.AddTermSequence | expr_parse_state.go:180-202 | a part of an array or an exact text term |
| ExprParser.ParseState.Feed | expr.go:98-152 | the effect of one byte; removing the escaping backslash never underflows, because the buffer ends in one |
| ExprParser.Extract | expr.go:61-83 | the text up to the parenthesis that closes the group, quotes and escapes respected, and where it ends |
| ExprParser.Parse | expr.go:34-167 | terminates on every input with the calls, or the error, of ExprSpec's Parse |
| ExprGrammar.ParsesToExpr | expr.go:46-167 | whatever the parser accepts, the builder receives the calls of an expression: groups balance and every operator is between two items |
| ExprGrammar.CallsDetermine | expr.go:46-167 | and of one expression only |
| QueryParse.SplitPrinted | expr.go:61-83 | group extraction finds the text of any query in parentheses again, whatever follows |
| QueryParse.SplitOpen | expr.go:61-83 | without the closing parenthesis it takes the text to the end |
| QueryParse.OperatorIs | expr_parse_state.go:130-136 | the words AND and OR, in any case, are the operators, and no others |
| QueryParse.ArrayCloses | expr_parse_state.go:33-111 | the parts of an array become a range, its numbers, its texts, or a group of numbers OR texts, each in order; the field stays in force |
| QueryParse.ParseText | expr.go:46-167 | for every query text, with any number of blanks, operators, groups, names, words, comparisons, quotations and arrays, every byte escaped where it must be: the parser makes exactly the calls of its expression, blanks meaning AND and clauses without a name the message; also when what is open at the end is not closed |
| QueryErrors.SecondColon | expr.go:135-143 | behind any query, a colon where a field is in force is the error for that position |
| QueryErrors.SecondBracket | expr.go:98-107 | an opening bracket in an array is the error for that position |
| QueryErrors.BadRange | expr_parse_state.go:51-63 | a range whose ends are not both numbers is the error that names its parts |
| QueryErrors.BadGroup | expr.go:85-95 | an error inside a group is wrapped with the text of the group |
| QueryErrors.EscapedParenOpens | expr.go:51-83 | a parenthesis behind a backslash opens a group; the backslash is sent behind it, as a word |
| ExprPrinter.QueryMeans | expr.go:46-167 | every expression whose atoms can be written has a query text that stands for it |
| ExprPrinter.ParsePrinted | expr.go:46-167 | from which the parser makes exactly its calls |
| MemoryExpr.MemoryExprBuilder.AddNode | memory/memory_expr.go:48-63 | into the last AND or OR node, else a new node of the level |
| MemoryExpr.MemoryExprBuilder.Operator | memory/memory_expr.go:66-86 | the last node becomes a node of that operator, unless it is one |
| MemoryExpr.MemoryExprBuilder.GroupStart | memory/memory_expr.go:89-93 | a fresh level, the outer one kept |
| MemoryExpr.MemoryExprBuilder.GroupEnd | memory/memory_expr.go:96-111 | the level becomes one node of the outer level; without an open group nothing happens |
| MemoryExpr.MemoryExprBuilder.Build | memory/memory_expr.go:27-46 | the conjunction of the top level, true for an empty expression, false for content that is not JSON |
| MemoryExpr.JoinHolds | memory/memory_expr.go:66-86 | adding an item behind an operator evaluates to that operator applied to what was there and the item |
| MemoryExpr.BuiltMeans | memory/memory_expr.go:27-111 | for every expression and every truth of its atoms the built predicate is the left-to-right reading with groups as units; the top level has at most one node, and no AND is directly inside an AND, nor an OR inside an OR |
| MemoryExpr.ParsedMeans | memory/memory_expr.go:27-111 | the same for every text the parser accepts |
| MemoryExpr.EvalText | memory/memory_expr.go:207-232 | a sequence is equality, a term without wildcards a substring, a wildcard term a glob match; a missing value matches nothing |
| Wildcard.PlainTermIsSubstring | memory/memory_expr.go:231 | a plain term between two stars matches exactly the strings that contain it |
| Wildcard.WildcardMatch | memory/wildcard.go:14-106 | terminates on every pattern and string, with a correct answer |
| Wildcard.Scan | memory/wildcard.go:34-106 | the goto loop computes the run of the search and stops, whatever positions backtracking leaves behind |
| Wildcard.AnswerIsCorrect | memory/wildcard.go:34-106 | for every pattern and string: sound for `?` as at most one byte, complete for `?` as one byte, and equal to either reading under its condition |
| Wildcard.MissesAMatch | memory/wildcard.go:48-105 | `?a` does not match `a`, though at most one byte would |
| Wildcard.AcceptsNone | memory/wildcard.go:49-52 | `a?` matches `a`, though exactly one byte would not |
| GlobSearch.AnswerIsUnique | memory/wildcard.go:34-106 | a search has at most one answer |
| GlobSearch.AnswerExists | memory/wildcard.go:34-106 | and it has one, whatever positions backtracking leaves behind |
| GlobSearch.FindsOnlyMatches | memory/wildcard.go:34-106 | an answer `true` is a match with `?` as at most one byte |
| GlobZeroOrOne.FindsEveryMatch | memory/wildcard.go:63-85 | if every `?` gives back its byte, every match with `?` as at most one byte is found |
| GlobZeroOrOne.MissesLiterals | memory/wildcard.go:63-105 | if some `?` does not, the string of all literals of the pattern is missed, which matches with every wildcard empty |
| GlobZeroOrOne.ExactIffGivesBack | memory/wildcard.go:34-106 | the answer is that match for all strings if and only if every `?` of the pattern gives back |
| GlobZeroOrOne.SingleMark | memory/wildcard.go:63-85 | for a pattern with one `?`: no literal behind it, or two different ones |
| GlobExactlyOne.FindsEveryMatch | memory/wildcard.go:49-85 | every match with `?` as exactly one byte is found, whatever the pattern |
| GlobExactlyOne.FindsOnlyMatches | memory/wildcard.go:49-105 | only those, if there is no `?` or only one literal, to the end, behind the wildcards after the first |
| GlobExactlyOne.FindsTooMuch | memory/wildcard.go:49-105 | otherwise some string is accepted that does not match |
| GlobExactlyOne.ExactIffAllTaken | memory/wildcard.go:49-52 | the answer is the documented match for all strings if and only if that condition holds |
| SqliteExpr.SqliteExprBuilder.GroupStart | sqlite/expr.go:37-41 | a parenthesis, and a fresh buffer |
| SqliteExpr.SqliteExprBuilder.GroupEnd | sqlite/expr.go:43-53 | the buffer is appended to the outer one, and a parenthesis |
| SqliteExpr.SqliteExprBuilder.Operator | sqlite/expr.go:55-61 | the word between blanks, unless the level is empty |
| SqliteExpr.SqliteExprBuilder.Text | sqlite/expr.go:63-81 | GLOB or equality, its path and term as arguments, a plain word between stars |
| SqliteExpr.SqliteExprBuilder.TextIn | sqlite/expr.go:83-94 | IN with one placeholder and argument a text, after the path |
| SqliteExpr.SqliteExprBuilder.Number | sqlite/expr.go:96-101 | a comparison with its two arguments |
| SqliteExpr.SqliteExprBuilder.Between | sqlite/expr.go:103-106 | a range with its three arguments |
| SqliteExpr.SqliteExprBuilder.NumberIn | sqlite/expr.go:108-119 | IN with one placeholder and argument a number, after the path |
| SqliteExpr.BoundInPlace | sqlite/expr.go:29-119 | after any sequence of calls there are as many placeholders as arguments, and binding them in order puts every argument where a linear document of the calls has it |
| SqlReader.LexTerm | sqlite/expr.go:63-119 | cut into words, the text of every atom is that of the condition it stands for: path, cast, operator and arguments in place |
| SqlReader.ReadsCondition | sqlite/expr.go:63-119 | whatever follows, the words of a condition are parsed to it; the AND of a BETWEEN belongs to it |
| BackEnds.SqlReads | sqlite/expr.go:29-61 | the text and arguments the builder emits for an expression bind, leave no group open, and are a formula exactly when no group is empty; read with AND before OR it means the disjunction of the runs of AND on each level |
| BackEnds.OrderedAgrees | sqlite/expr.go:37-61 | without an AND after an OR on any level that is the left-to-right reading |
| BackEnds.BackEndsAgree | memory/memory_expr.go:48-86 | so for such expressions without empty groups the in-memory predicate accepts exactly when the emitted SQL, bound and parsed, is true |
| BackEnds.AgreeExactly | memory/memory_expr.go:48-86 | over distinct conditions the built predicate and the emitted SQL, bound and parsed, agree for every assignment of truth to the conditions if and only if no AND follows an OR on the same level |
| BackEnds.TheyDiffer | memory/memory_expr.go:66-86 | for the calls of `f:a OR f:b AND f:c` and an entry where only the first holds, the predicate rejects and the SQL is true |
| BackEnds.QueryMeans | expr.go:46-167 | from query text to both back ends: every query text is parsed, built to a predicate and to SQL text with arguments, and both mean what the query stands for, if it is ordered and without empty groups |
| TextAtoms.TextAtomsAgreeIff | memory/memory_expr.go:207-232 | the in-memory text condition and the SQL condition agree on all values if and only if the term has no wildcard or all its question marks are taken |
| TaskRuns.InvNext | sqlite/storage_scheduler.go:218-272 | every operation of API, scheduler and task goroutines keeps the invariant: a task is in at most one place, its status fits that place, created tasks are somewhere, numActiveTasks is exact |
| TaskRuns.RunInv | sqlite/storage_scheduler.go:218-272 | the invariant holds in every interleaving |
| TaskRuns.ActiveIsExact | sqlite/storage_scheduler.go:120-141 | numActiveTasks is the number of dispatches not completed; every dispatch completes exactly once, on every path |
| TaskRuns.OneCaller | sqlite/storage_scheduler.go:228-269 | at most one goroutine is in the callback of a task, and no dispatch calls it twice |
| TaskRuns.CreatedIsKept | sqlite/storage_scheduler.go:235-241 | a created task is never lost: it waits, or a dispatch is about to claim or to requeue it |
| TaskRuns.ProcessingIsClaimed | sqlite/storage_scheduler.go:228-263 | in every run a processing task is held by a dispatch that will finish it or give it back, or has had its callback fail and been retried |
| TaskRuns.FinishableIff | sqlite/storage_scheduler.go:228-263 | some run finishes a task if and only if it is finished, created, or processing and claimed |
| TaskRuns.ClosedFinishesIff | sqlite/storage_scheduler.go:235-241 | a task whose database is found closed before its callback can still be finished if and only if it is still processing |
| TaskRuns.CancelIsFinal | sqlite/storage_scheduler.go:42-50 | a canceled task stays canceled, whatever follows, and once it is in no map it never comes back into one |
| TaskRuns.CanceledIsNotCalled | sqlite/storage_scheduler.go:228-233 | the callback of a canceled task that no dispatch has claimed is never called |
| TaskRuns.EndedStays | sqlite/storage_scheduler.go:42-50 | a finished or canceled task is never created or processing again, and canceled is final |
| TaskRuns.DispatchEnds | sqlite/storage_scheduler.go:228-269 | whatever the others do, a dispatch is never blocked and completes after at most seven operations of its own |
| TaskRuns.RetryFinishesIff | sqlite/storage_scheduler.go:243-263 | after a failed callback some run finishes the task if and only if the database is found closed and the task is still processing, not canceled |
| TaskRuns.StickingIsReached | sqlite/storage_scheduler.go:243-256 | a run of nine operations after which the task is processing and nothing will process it again |
| TaskRuns.StuckStays | sqlite/storage_scheduler.go:228-256 | such a task stays so, and is never finished, in whatever follows |
| Scheduler.TaskDb.Schedule | sqlite/storage_db.go:77-80 | the task is in the map, and taskCount is still the number of tasks |
| Scheduler.TaskDb.Cancel | sqlite/storage_db.go:83-89 | the task is out of the map; tells whether it was there |
| Scheduler.TaskDb.Execute | sqlite/storage_db.go:97-110 | exactly as many tasks as allowed, at least one if there is any, leave the map |
| Scheduler.Round | sqlite/storage_scheduler.go:120-141 | the number of tasks started on every database, taken from its map; without a free place none is started and no map changes |
| Scheduler.StartedIs | sqlite/storage_scheduler.go:112-141 | none on a database that is closed or has no task, or without a free place; one where another database, open or closed, has tasks too; else all for which there are places |
| Scheduler.QuotaIsAllOrOne | sqlite/storage_scheduler.go:138 | the integer division gives all free places to a database that holds every task, and one to any other |
| Scheduler.QuotaIsKeptIff | sqlite/storage_scheduler.go:112-141 | with free places a round stays within them if and only if at most that many open databases have tasks; without any it starts nothing |
| Scheduler.QuotaCanBeExceeded | sqlite/storage_scheduler.go:112-141 | two databases with a task each start two tasks for one free place |
| Paging.Entries | sqlite/api_entries.go:19-170 | selection, stable order, per-database LIMIT, early break, closed database scheduled, error returned, as the function Page |
| Paging.SortIsStable | sqlite/api_entries.go:130-138 | sorting orders the databases by start, and those of each start stay as they are, in the order they had |
| Paging.ReadingOrder | sqlite/api_entries.go:130-141 | reading the selected databases in their sorted order reads keys in order |
| Paging.ConcatIsMerge | sqlite/api_entries.go:111-141 | reading them one after the other yields everything that matches, merged in key order; the selection leaves out no matching row |
| Paging.PageIsPrefix | sqlite/api_entries.go:96-166 | up to a size of 100 a page is a prefix of that merge, even when a closed database cuts it short; otherwise it has maxResult rows or all there are |
| Paging.PageSchedules | sqlite/api_entries.go:154-163 | a scheduled database is closed, selected, and the first such in reading order: all selected sooner ones are open and read, and the page and its rows are a prefix of the merge |
| Paging.PageFails | sqlite/api_entries.go:142-147 | a page is an error only at a broken open database before which all selected ones are read; one that is not full and schedules nothing has read every selected database |
| Paging.PageSize | sqlite/api_entries.go:101-153 | fewer than maxResult and one LIMIT together, or at most a LIMIT; at least what the first database has, up to its LIMIT |
| Paging.PageHits | sqlite/api_entries.go:96-100 | every row of a page is wanted, and strictly behind the position asked for |
| Paging.LimitLeavesGap | sqlite/api_entries.go:101 | beyond 100, 101 rows in one database and one in the next make a page with a gap |
| Paging.GapFreeIff | sqlite/api_entries.go:101-166 | pages are free of gaps for all databases if and only if maxResult is at most 100 |
| Paging.WalkEnds | sqlite/api_entries.go:19-48 | asking for the page behind the last row ends, after at most one page a row and an empty one, unless it comes to a page behind which the request strays: the row is of second 0, and reading from the current time shows it again or passes over a row |
| Paging.WalkEnumerates | sqlite/api_entries.go:19-48 | the pages of a walk that ends are everything that matches, each row once and in order, if and only if no request strays |
| Paging.WalkIsComplete | sqlite/api_entries.go:19-48 | without rows of second 0 there is such a walk and it is complete |
| Paging.WalkRepeats | sqlite/api_entries.go:30-32 | with one row of second 0, read towards older rows, no walk ends |

## Left out

- Ingester.Ingester.DoRoutineCheck: the age of the last entry is an input, `expired`; tickers, sleeps and the clock are not modelled.
- Ingester.Ingester.Quit: flushChunk moves with every pass, the source moves a local variable and stores it at the end; nothing else runs meanwhile. Ingest after Close is not modelled.
- Ingester.Chunk.Next: the repair of a capacity of zero in Init, which no constructor produces, and the mutex around the creation of the successor.
- Protocol.InvNext: accesses are sequentially consistent single words, and a chunk gets fewer than 2^31 bookings; the Go memory model and int32 wrap-around are not modelled. Entries are stored by reference there and by value here.
- Interleavings.RoutingHolds: at the level of single accesses the flusher locks chunks and extends the list; which chunk it stores or drops is in Ledger.
- ExprParser.Parse: bytes are characters, ParseFloat and TrimSpace are arbitrary functions given by the caller; the trimming and caching of whole expressions around the parser are left out.
- QueryParse.ParseText: texts in which a word is glued to what follows it, such as `a(b)` or `a"b"`, and names before a parenthesis are not among the query texts.
- FlushProgress.OverdueIsStored: that the storage accepts every call from the first check on is a condition; what happens when it does not is in SealedIsTried and Ledger.LedgerBalances.
- SoloPuts.IngestAlone: calls that overlap are in Interleavings; the number of retries of a chunk is not part of the protocol.
- TextAtoms.TextAtomsAgreeIff: terms with `[`, which begins a set of characters in SQLite's GLOB, and values that are not strings.
- MemoryExpr.MemoryExprBuilder.AddNode: nodes are values, so the sharing of a node's slice is not modelled; no caller keeps a second reference.
- MemoryExpr.BuiltMeans: atoms are pure predicates; number and list atoms, and text atoms over values that are not strings, which mutate the decoded entry, are left out; text atoms over strings are in EvalText and TextAtoms.
- SqlReader.ReadsCondition: the reader knows the words and the part of SQLite's grammar that the builder's text uses; string literals, comments and other operators are not read.
- BackEnds.BackEndsAgree: the truth of a condition on an entry is given, the same for both back ends; when it is, for text atoms, is in TextAtoms. SQL's NULL counts as false, which AND and OR without NOT allow.
- SqliteExpr.SqliteExprBuilder.Build: with groups still open it returns only the innermost text; the statement about placeholders is about all buffers, which is the same for balanced calls.
- SqliteExpr.SqliteExprBuilder.TextIn: the loop it shares with NumberIn is one method here, WriteList.
- TaskRuns.EndedStays: Cancel is its write of the state word; the call on the task's database after it is not modelled, since that reference is never set.
- Scheduler.Round: no task is scheduled during the round; whether databases are open is fixed. Opening, closing and re-sorting databases are left out.
- Paging.Entries: a database is a sequence of rows sorted by key and a query its filter, order and limit; level and expression clauses are one predicate; the library sort is a function.
- Paging.WalkEnumerates: the current time is the same for all requests of a walk; databases have distinct, disjoint, ordered time ranges.
- HTTP handlers, the web interface, the slog handler, ticks, file handling, real SQLite execution and MemoryStorage.

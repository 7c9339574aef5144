# Scrutineer: a verified model

This project models the behaviour of Scrutineer, a declarative test runner, where it is most intricate, and proves what
its parts promise each other. Each module names the source files it follows.

| module | what it models |
|---|---|
| `ExprNumbers`, `ExprLexer`, `ExprParser`, `ExprEvaluator`, `ExprPrinter` | the `${fn:...}` expression language: lexer, recursive-descent parser with its nesting limit, depth-limited evaluator, and a printer as their partner |
| `Fixture`, `BraceAgreement`, `Template` | interpolation of templates, the hand-written brace finder, its agreement with lexer and parser, and rendering as the partner of interpolation |
| `CdpClient` | the request/response protocol of the browser client as steps of callers, read loop, server and shutdown |
| `Dispatch`, `Engine` | semaphore-bounded workers as a state machine; the suite runner with its dispatchers, loop controller and counters, and its counting law |
| `Bytes`, `Tlv`, `TelemetryLog` | the telemetry file format, its writer, reader and truncation detection |
| `WebSocket` | WebSocket frames and message loops, which the repository writes twice |
| `Weight`, `FleetPool` | weighted selection, proportional distribution, host pools with expiry |
| `ShellArgs`, `Dependencies` | splitting a command line; the closure of protobuf file dependencies |
| `YamlScanner`, `YamlParser`, `YamlText`, `YamlFlow`, `YamlLayout`, `YamlBlock`, `YamlScalars` | the YAML subset: stateful scanner, indentation-sensitive parser, and what is read of documents printed in all its forms |
| `Wrappers`, `Sequences`, `Quoting`, `Arithmetic` | `Option`, `Result`, collecting what a reader returns, occurrences of one sequence inside another, double-quoted texts, powers |

Code that updates fields in loops is modelled by classes and methods. Each method is proved to compute a recursive
function that reads the input from a position (`TokensAt`, `ExprAt`, `DecodeAt`, `FrameAt`, `ScanFrom`, ...), and the
theorems are about those functions. Concurrent code is a state machine, and the theorems are about all its runs.

`dafny verify dfyconfig.toml` checks the whole project.

## What the code does not do

Eight statements that one might expect are false of the code. Each is replaced by its exact condition.

- A literal that ends in a backslash directly before a reference is not rendered compositionally: the backslash escapes
  the `$` (`Template.CompositionalIffClean`).
- A record does not round trip when a key, a value or the number of tags needs more than 16 bits, or an area more than
  32, because the lengths are cut off in writing (`Tlv.RoundTripIffBounded`).
- `buildPongFrame` writes the payload length into seven bits, so it is readable only up to 125 bytes
  (`WebSocket.PongReadsIffShort`).
- `parseShellArgs` drops quoted empty words (`ShellArgs.WordsRoundTrip`).
- A YAML mapping of one pair that is the last item of a block sequence takes the next key of an outer mapping for its own,
  because keys behind a dash get the indentation 0 (`YamlBlock.BlockRoundTripIffSafe`, with the input of
  `YamlBlock.NextKeyIsSwallowed`).
- A cancelled concurrent dispatch need not return: with two items or more the drain can take a running worker's slot
  (`Dispatch.CanHangIffTwo`, `Dispatch.RestIsReturnOrTheft`).
- `DistributeByWeight` promises its remainders to the highest-weight bins; it gives them to the first bins of positive
  weight (`Weight.HeaviestFirstIff`, with the input of `Weight.LighterBinIsFavoured`).
- `resolveTransitiveDeps` need not end: a server that answers nothing to a missing name is asked again for ever
  (`Dependencies.EndsIffNeverStalls`, `Dependencies.SilentServerSpins`).

More results say what is lost, added or misread, and when. A CDP caller that registers after the shutdown sweep is never
woken, one that registers during it is woken exactly if the sweep comes past it (`CdpClient.CallAfterSweepNeverReceives`,
`CdpClient.LateCallWakesIffPicked`). Hosts whose replacement cannot be acquired leave the pool without being released, and
nothing else loses a host (`FleetPool.Orchestrator.CheckTTL`). In a YAML block scalar with CRLF line ends every line is
followed by an empty one (`YamlScalars.CarriageReturnAddsLine`); the first key of a list item with nothing behind it takes
the other keys of the item for its value (`YamlBlock.EmptyFirstValueSwallows`); and a pair in a flow sequence is read as
two items (`YamlFlow.PairInSequenceSplits`).

## Model

| member | source | states |
|---|---|---|
| Template.CompositionalIffClean | core/fixture/fixture.go:107-166 | For a template made of literals (each `$` written `\$`), `${ref}` and `${fn:expr}` parts that all have values: `Interpolate` returns the parts' values in a row if and only if no literal ends in a backslash directly before a reference |
| Template.InterpolationIsCompositional | core/fixture/fixture.go:107-166 | Any such clean template interpolates to the concatenation of its parts' values, or to the error of the leftmost part that has none |
| Template.LiteralsAreIdentity | core/fixture/fixture.go:107-131 | A template of literals only gives its text back, whatever characters it holds |
| Template.UncleanDiffers | core/fixture/fixture.go:113-118 | Wherever a literal ends in a backslash before a reference, the result differs from the parts' values: the backslash takes the `$` |
| Template.BackslashSwallows | core/fixture/fixture.go:113-118 | The branch that goes wrong: reading such a literal can never yield its own text |
| Template.PartsRead | core/fixture/fixture.go:107-166 | The same as compositionality, from any position of the loop to the end of the input |
| Template.LiteralReads | core/fixture/fixture.go:107-131 | An escaped literal is read back character by character, up to any text that does not turn its last backslash into an escape |
| Template.RefReads | core/fixture/fixture.go:107-166 | A reference without `}` that does not start with `fn:` is read as the value it resolves to, and the loop goes on behind its brace |
| Template.FnReads | core/fixture/fixture.go:107-166 | A function expression that lexer and parser accept is read whole, whatever quotes, braces and parentheses it holds, and replaced by its evaluation |
| Template.CaptureReads | core/fixture/fixture.go:36-166 | After `SetCapture(key, value)`, `${capture.key}` interpolates to that value, for every key without dots and braces |
| Template.FixtureReads | core/fixture/fixture.go:49-77 | `${fixture.key}` interpolates to the fixtures' own value under that key, whatever the captures hold, and is the unresolved reference when the key is missing |
| Template.EnvReads | core/fixture/fixture.go:63-73 | `${env.NAME}` interpolates to the environment's text under the whole name, dots included, and is unresolved when it is not set |
| Template.NestedReads | core/fixture/fixture.go:49-96 | Keys joined by dots interpolate to the value that lies under them, outermost first, in the fixtures or in the captures, at any depth and beside anything else |
| Template.DeadEndReads | core/fixture/fixture.go:80-96 | They are unresolved when the value found on the way is not a map or lacks the next key |
| Template.NothingElseReads | core/fixture/fixture.go:49-76 | A reference without a dot, or with a prefix other than the three, is unresolved |
| Template.ExpressionSeesStore | core/fixture/fixture.go:134-147 | `${fn:f(path)}` interpolates to the registered function applied to the very value the path leads to in the store, or to its failure with the expression in it |
| Template.NoRegistryNoExpression | core/fixture/fixture.go:215-220 | Before a registry is set every accepted expression is the error that says so |
| Template.UnclosedStays | core/fixture/fixture.go:120-148 | A text without a closing brace and without an escaped `$` is its own interpolation: a `${` that is never closed stays |
| Fixture.Store.Interpolate | core/fixture/fixture.go:107-166 | The loop over the input computes the recursive reading used in the theorems above, error included |
| Fixture.Store.Piece | core/fixture/fixture.go:110-163 | One turn of that loop: which text it writes and where it goes on, or which error it stops with |
| Fixture.FindExpressionEnd | core/fixture/fixture.go:172-212 | The index loop with its depth and quote flags returns the end the recursive scan finds, or -1; the two quote flags are never both set |
| Fixture.Store.Resolve | core/fixture/fixture.go:49-77 | Cuts the reference at its first dot and looks up the rest as the specification says; what that gives for each prefix are `FixtureReads`, `CaptureReads`, `EnvReads`, `NestedReads`, `DeadEndReads` and `NothingElseReads` |
| Fixture.Store.NavigatePath | core/fixture/fixture.go:80-96 | Walking dotted keys with a cursor is descending into the nested maps, failing at the first missing key or non-map |
| Fixture.Store.SetCapture | core/fixture/fixture.go:36-38 | Adds one binding to the captures and changes nothing else of the store |
| Fixture.Store.SetExpressionRegistry | core/fixture/fixture.go:99-101 | Sets the registry and changes nothing else of the store |
| Fixture.Store.EvalExpression | core/fixture/fixture.go:215-220 | Without a registry the error says so; otherwise the value or the error of evaluating the text |
| Fixture.Store.InterpolateMap | core/fixture/fixture.go:224-236 | In whatever order the entries are visited: success gives the one rendering of the whole tree, failure an error of some entry |
| Fixture.Store.InterpolateValue | core/fixture/fixture.go:239-258 | The same for any value: lists report their first failing item, values other than strings, maps and lists pass through |
| Fixture.RenderingIsUnique | core/fixture/fixture.go:224-258 | There is at most one rendering of a tree, so a successful `InterpolateMap` does not depend on map order, and then every string in the tree interpolates |
| Fixture.FailureHasCause | core/fixture/fixture.go:224-258 | An error is reported only when some string of the tree does not interpolate |
| BraceAgreement.FinderStopsAfterExpression | core/fixture/fixture.go:172-212 | For every text e that the lexer and the parser accept and any text behind it, the finder on `fn:` e `}` stops exactly at the brace after e |
| BraceAgreement.FinderSkipsTokens | core/fixture/fixture.go:172-212 | Over any text that tokenizes, the finder does not stop, and comes out at the depth given by the tokens' parentheses |
| BraceAgreement.FinderSkipsString | core/expression/lexer.go:68-89 | The finder's quote flags and the lexer's `readString` leave a string literal at the same position, escapes included |
| BraceAgreement.FlattenBalanced | core/expression/parser.go:49-153 | The tokens of every tree have balanced parentheses |
| ExprPrinter.PrintParses | core/expression/parser.go:20-153 | Every printable tree, with strings in either quote, backslashes escaped where they must be or everywhere, and any white space behind the tokens, tokenizes and parses back to itself up to height 256, and gives the nesting error, and no other, above |
| ExprPrinter.PrintLexes | core/expression/lexer.go:21-124 | The printed text of every printable tree tokenizes to exactly the flattening of the tree |
| ExprPrinter.PrintEvaluates | core/expression/evaluator.go:84-96 | Evaluating the printed text of a tree is the plain meaning of the tree |
| ExprPrinter.LiteralsDenoteThemselves | core/expression/evaluator.go:36-46 | Evaluated as texts, a quoted string is its value, a boolean its truth, and a number in range its spelling, integer exactly without a dot |
| ExprPrinter.PathsResolve | core/expression/evaluator.go:48-60 | A path evaluates to the very value it resolves to; one that does not resolve is its own text without a dot and the error with one |
| ExprPrinter.CallsApply | core/expression/evaluator.go:62-75 | A call whose arguments evaluate, each as a text of its own, is the registered function applied to exactly those values in that order, or that function's error |
| ExprPrinter.CallsFail | core/expression/evaluator.go:62-74 | Otherwise the first argument that fails gives the error, unless the function is unknown |
| ExprPrinter.UnknownCallsFail | core/expression/evaluator.go:63-66 | An unknown function is the error before any argument is evaluated |
| ExprPrinter.ExprLexes | core/expression/lexer.go:21-124 | The same at any position of a longer text, before anything that may follow a printed expression |
| ExprParser.ParseIffFlatten | core/expression/parser.go:20-153 | For every list of tokens: `Parse` returns e if and only if the tokens are the flattening of e, e has height at most 256 and every number in it is one the number parser accepts: soundness and completeness in one |
| ExprParser.ParseTooDeep | core/expression/parser.go:49-54 | On the flattening of a tree whose numbers are accepted, the answer is the nesting error exactly when the tree is higher than 256 |
| ExprParser.ExprSound | core/expression/parser.go:49-109 | Whatever `parseExpr` accepts from any position and nesting depth is the flattening of the tree it returns, within the depth that was left |
| ExprParser.CallSound | core/expression/parser.go:111-153 | The same for a call whose parenthesis was consumed |
| ExprParser.MoreSound | core/expression/parser.go:121-152 | The same for the rest of an argument list |
| ExprParser.ExprComplete | core/expression/parser.go:49-109 | On the tokens of a tree at any position, `parseExpr` returns that tree and the position behind it, or the nesting error when the height exceeds what is left |
| ExprParser.CallComplete | core/expression/parser.go:111-153 | The same for calls |
| ExprParser.MoreComplete | core/expression/parser.go:121-152 | The same for argument lists |
| ExprParser.Parser.ParseExpr | core/expression/parser.go:49-79 | The method with its `pos` and `depth` fields computes the recursive reading and leaves `depth` as it found it, on errors too |
| ExprParser.Parser.ParseIdentOrCall | core/expression/parser.go:98-109 | An identifier is a call exactly when a parenthesis follows |
| ExprParser.Parser.ParseFuncCall | core/expression/parser.go:111-153 | The argument-collecting loop computes the recursive argument list, with the same error in the same place |
| ExprParser.ParseTokens | core/expression/parser.go:20-33 | The exported entry point: empty input and trailing tokens are errors |
| ExprParser.ParseNumber | core/expression/parser.go:81-94 | A number keeps its spelling and is an integer exactly when it has no dot; the only error is the invalid number, with its spelling |
| ExprParser.NumbersAreExact | core/expression/parser.go:81-94 | Which spellings succeed: of those the lexer can read exactly the ones in the range of int64 or float64; without a dot exactly an optional sign and digits in range; none with two dots |
| ExprLexer.Lexer.Tokenize | core/expression/lexer.go:21-60 | The loop over `pos` returns the tokens of the recursive reading, or its first error with the same position |
| ExprLexer.Lexer.ReadString | core/expression/lexer.go:68-89 | The value between the quotes, with an escaped quote or backslash replaced by itself and every other backslash kept |
| ExprLexer.Lexer.ReadNumber | core/expression/lexer.go:91-112 | An optional sign, digits, and digits behind a dot if there is one; anything else is the invalid-number error |
| ExprLexer.LexedNumbers | core/expression/lexer.go:91-112 | Every number token that `Tokenize` produces is an optional minus, digits and optionally a dot with more digits, so its acceptance is fixed |
| ExprLexer.Lexer.ReadIdent | core/expression/lexer.go:114-124 | The longest run of identifier characters; `true` and `false` are booleans |
| ExprEvaluator.ParsedNeverExceedsDepth | core/expression/evaluator.go:13-80 | On every tree `Parse` can return, `Eval` from depth 0 never reports its depth limit and equals the plain left-to-right meaning, first error included |
| ExprEvaluator.EvalIsMeaning | core/expression/evaluator.go:29-80 | Evaluation entered at any depth that leaves room for the tree is the depth-free meaning |
| ExprEvaluator.MeaningHasNoDepth | core/expression/evaluator.go:29-80 | The depth-free meaning never mentions the limit |
| ExprEvaluator.Evaluator.Eval | core/expression/evaluator.go:29-80 | The method with its `depth` counter computes that evaluation and leaves `depth` as it found it; what each form evaluates to are `LiteralsDenoteThemselves`, `PathsResolve`, `CallsApply`, `CallsFail` and `UnknownCallsFail` |
| ExprEvaluator.EvalString | core/expression/evaluator.go:84-96 | Lexer, parser and evaluator in a row: the first stage that fails decides the error, otherwise the result is the meaning of the parsed tree |
| CdpClient.RunKeepsInv | connector/browser/cdp/client.go:45-172 | Every reachable state, with any number of callers, an arbitrary server and any interleaving, satisfies the invariant over ids, channels, pending map, messages and wake-ups; that arriving responses reach their calls is `ResponseIsDelivered` |
| CdpClient.ResponseIsDelivered | connector/browser/cdp/client.go:72-77 | No response is lost: one that arrives while its call is pending is, as soon as the read loop has put it down, what the channel holds for as long as the call awaits, through the shutdown sweep too; the call can then receive, and all it can ever receive is that response |
| CdpClient.PendingIffUnanswered | connector/browser/cdp/client.go:72-77 | While the loop reads, a waiting call is pending exactly as long as its channel is empty, so the response handed over is the first |
| CdpClient.FinishedCallsLeaveNoEntry | connector/browser/cdp/client.go:151-157 | Whatever way a call ends, and before it registers, it has no entry in the pending map |
| CdpClient.NoCallBeginsAfterClose | connector/browser/cdp/client.go:115-126 | Once the client is closed it stays so, and a call that has not begun can only end as closed |
| CdpClient.DoneIffClosed | connector/browser/cdp/client.go:45-63 | The closed flag is set exactly by `Close` and by the end of the read loop |
| CdpClient.StepKeepsIds | connector/browser/cdp/client.go:128-128 | Every step keeps ids unique per call and below the counter |
| CdpClient.StepKeepsChannels | connector/browser/cdp/client.go:151-153 | Every step keeps channels one-slot, registered under ids already issued, and present for every waiting call |
| CdpClient.StepKeepsEmpty | connector/browser/cdp/client.go:72-77 | Every step keeps: before the sweep a pending id has an empty channel, and so has the id being delivered |
| CdpClient.StepKeepsMessages | connector/browser/cdp/client.go:72-84 | Every step keeps: what lies in a channel, and what a call received, bears that call's id or is the connection error after a read failure |
| CdpClient.StepKeepsWake | connector/browser/cdp/client.go:50-64 | Every step keeps: a call registered before the sweep has a message, or somebody is still going to leave one |
| CdpClient.IdsAreNeverReused | connector/browser/cdp/client.go:128-128 | Over a whole run an id belongs to one call, even at different times |
| CdpClient.ReceivesOwnResponse | connector/browser/cdp/client.go:72-77 | A call only ever receives the response that bears its own id |
| CdpClient.NoResponseTwice | connector/browser/cdp/client.go:72-77 | No response is delivered twice, to the same call or to two |
| CdpClient.DeliveryNeverBlocks | connector/browser/cdp/client.go:73-75 | In every state in which the read loop is about to send into a channel, that send can go ahead, and every pending channel is empty; which arrivals lead there is `ResponseIsDelivered` |
| CdpClient.SweepNeverStuck | connector/browser/cdp/client.go:54-62 | The shutdown sweep always has a next step, whatever callers do meanwhile |
| CdpClient.SweepIsBounded | connector/browser/cdp/client.go:54-62 | The sweep makes at most as many visits as ids were ever given out |
| CdpClient.EarlyCallersWake | connector/browser/cdp/client.go:54-62 | Once the loop has stopped, every waiting call registered before the sweep can receive |
| CdpClient.NowOrNever | connector/browser/cdp/client.go:152-159 | After the loop has stopped, a waiting call either can receive at once, or it registered after the sweep began and waits for ever |
| CdpClient.LateCallerIsAbandoned | connector/browser/cdp/client.go:116-159 | This happens: a run in which a caller passes the done check, stores its channel after the sweep and waits for ever |
| CdpClient.CallAfterSweepNeverReceives | connector/browser/cdp/client.go:152-159 | In every run, a call that stores its channel after the read loop has stopped never receives anything, however the run goes on |
| CdpClient.LateCallWakesIffPicked | connector/browser/cdp/client.go:54-62 | In every run, a call that stored its channel when the sweep had begun and still waits when the loop has stopped can receive if and only if the sweep visited its id after that |
| Dispatch.BoundedConcurrency | core/engine/dispatcher.go:79-121 | In every state of every run, cancelled or not, at most `concurrency` workers hold a slot |
| Dispatch.NothingRunsTwice | core/engine/dispatcher.go:85-120 | In every state of every run, cancelled or not, each index has done a prefix of its work once: nothing is launched twice |
| Dispatch.StepDecreases | core/engine/dispatcher.go:79-121 | Every step lowers a measure |
| Dispatch.RunsAreBounded | core/engine/dispatcher.go:79-121 | No run is longer than the measure of its first state, so every run comes to rest |
| Dispatch.RestIsReturnOrTheft | core/engine/dispatcher.go:96-107 | Every run at rest has returned if and only if the drain did not take a slot that the launcher did not hold; otherwise exactly one worker waits for its slot for ever |
| Dispatch.TheftNeedsWaitingLauncher | core/engine/dispatcher.go:85-103 | In every run the drain takes a slot that the launcher did not hold only when the cancellation arrives while the launcher waits for a slot |
| Dispatch.NothingBeginsAfterCancel | core/engine/dispatcher.go:85-118 | In every run, once the context is cancelled no worker is launched any more, and a worker that is not at work does nothing more |
| Dispatch.UncancelledRunsComplete | core/engine/dispatcher.go:79-126 | An uncancelled run without panics that has come to rest has returned, and its trace is an interleaving in which every index ran exactly once |
| Dispatch.CanHangIffTwo | core/engine/dispatcher.go:79-107 | For every concurrency and every kind of work: there is a run that rests without returning if and only if there are two items or more |
| Dispatch.TheftRun | core/engine/dispatcher.go:91-107 | Such a run, step by step: the cancellation arrives while the launcher waits for the slot of its second item, and the drain takes the slot of the first worker |
| Dispatch.StepKeepsSlots | core/engine/dispatcher.go:91-121 | Every step keeps the semaphore count equal to the slots held, less the one the drain took |
| Dispatch.StepKeepsAccount | core/engine/dispatcher.go:105-119 | Every step keeps each worker's finished and remaining actions equal to its work |
| Engine.ParallelRunIsSequentialMap | core/engine/engine.go:86-99 | Every completed run of the pool leaves in slot i the result of suite i, once each: `Engine.Run` equals the sequential map, for any parallelism |
| Engine.ConcurrentRunsMerge | core/engine/parallel.go:21-40 | What a completed uncancelled concurrent run records is a merge of its items' records |
| Engine.WrittenIsLast | core/engine/engine.go:93-96 | A slot of the results slice holds the last write to it, whatever was written to the others in between |
| Engine.SuiteConserves | core/engine/engine.go:219-485 | For a non-weighted outer mode, what the passes record adds up to the passes times the total number of tests, for every inner mode, shuffle, draw and interleaving |
| Engine.VerdictsAreTheTests | core/engine/engine.go:424-471 | Without weighted dispatchers and with outcomes that depend on the test alone, the passed and the failed are the repeats times the numbers of tests that do so, for every order and interleaving |
| Engine.SkipsAreExact | core/engine/engine.go:427-432 | Without weighted dispatchers the skipped are the repeats times the number of tests marked so, whatever the others do |
| Engine.DrawsFollowWeights | core/engine/engine.go:303-311 | Of the equally likely draws of an engine dispatcher exactly as many select an item as its weight says, a weight that is not positive counting as 1 |
| Engine.RunSuite | core/engine/engine.go:103-108 | Whichever path a suite takes, with no duration and no cancellation: unless its outer mode is weighted, the reported Passed + Failed + Skipped is the repeat count (1 without one) times the number of its tests, or of the tests of its interactions |
| Engine.RunSuiteWithExecution | core/engine/engine.go:219-358 | The loop controller, the outer dispatcher, the interactions, the locked records and the summary together: exactly `repeat` passes run (0 standing for 1), the three counters are the numbers of such records, and for a non-weighted outer mode they add up to the repeats times the tests |
| Engine.RunSuiteSimple | core/engine/engine.go:113-214 | Without execution block and interactions each test is run once, in order, and the three counters are the numbers of such verdicts |
| Engine.RunPass | core/engine/engine.go:325-335 | One outer dispatch: what it records is what its interactions record in the order of its mode, merged; a weighted mode runs the interaction whose stretch of the weights covers the draw |
| Engine.RunInteraction | core/engine/engine.go:362-485 | One inner dispatch over the tests of an interaction: each call records skipped, passed or failed as its test has it, in the order of the mode, merged; weighted calls are those that the tests' weights and the draws select |
| Engine.Dispatched | core/engine/dispatcher.go:170-181 | The dispatcher of a mode, uncancelled, calls 0, 1, ..., a permutation, or for each draw the index whose stretch of the given weights, those not positive counting as 1, covers it |
| Engine.PassConserves | core/engine/engine.go:324-336 | One outer pass records exactly the total number of tests |
| Engine.PassesConserve | core/engine/engine.go:323-336 | n passes record n times that total |
| Engine.InteractionConserves | core/engine/engine.go:362-485 | One interaction records as many verdicts as it has tests, in every mode, weighted draws included |
| Engine.WeightedPassRunsOne | core/engine/engine.go:316-336 | A pass of a weighted outer mode runs one interaction, the one whose stretch of the interactions' weights covers the draw |
| Engine.MergedKeepsAll | core/engine/engine.go:424-471 | However the runs are interleaved, nothing recorded is lost, doubled or changed |
| Engine.SumAtPermutes | core/engine/dispatcher.go:37-54 | A sum over dispatched indices does not depend on their order |
| Engine.SequentialDispatch | core/engine/dispatcher.go:25-32 | Calls 0, 1, ... in order, up to the first cancellation seen |
| Engine.RandomDispatch | core/engine/dispatcher.go:37-54 | Calls a permutation of all indices, up to the first cancellation seen |
| Engine.WeightedDispatch | core/engine/dispatcher.go:138-154 | Makes `count` draws, each calling the index whose stretch of the weights contains it, up to the first cancellation; none when the weights sum to zero |
| Engine.UncancelledCallsAll | core/engine/dispatcher.go:25-54 | A sequential or random dispatch that sees no cancellation calls its whole order |
| Engine.LoopRun | core/engine/loop.go:32-69 | Pass numbers count from 1; with a repeat bound and no cancellation exactly that many passes run; stopping earlier has a cancellation as its reason |
| Engine.SuiteResult.Record | core/engine/engine.go:427-468 | A locked section counts a skip or appends a result, and the object goes on accounting for everything recorded |
| Engine.SuiteResult.Summarise | core/engine/suite.go:20-28 | After it Passed, Failed and Skipped are the numbers of such records and add up to all of them; the results are untouched |
| TelemetryLog.AnyPrefixReads | core/telemetry/reader.go:27-40 | A log of any list of size-bounded records, cut at any byte: inside the header the truncated-header error; after it exactly the records wholly before the cut, then EOF if the cut is on a record boundary and the truncated-record error otherwise |
| TelemetryLog.LogRoundTrip | core/telemetry/reader.go:27-40 | An uncut log reads back as exactly the records written, then EOF |
| TelemetryLog.WholeWithinIsLargest | core/telemetry/tlv.go:69-107 | The number of whole records before a cut is the largest m whose first m records fit |
| Tlv.RoundTripIffBounded | core/telemetry/tlv.go:69-185 | A record with an int64 timestamp and a uint16 event type decodes to itself if and only if its keys and values are shorter than 65536 bytes, its tag area and detail shorter than 2^32, and its tags fewer than 65536 |
| Tlv.DecodedIsBounded | core/telemetry/tlv.go:110-185 | Whatever a record decodes to itself from is within those widths |
| Tlv.RecordDecodes | core/telemetry/tlv.go:69-185 | With field sizes in range, decoding an encoded record inside any stream consumes exactly its bytes and returns it with the tags its 16-bit count admits |
| Tlv.KeepsAllIffCounted | core/telemetry/tlv.go:189-223 | Those are all tags exactly when there are fewer than 65536 |
| Tlv.CutRecordTruncates | core/telemetry/tlv.go:110-185 | A record cut anywhere strictly inside gives the truncated-record error and uses up the stream |
| Tlv.EntriesRead | core/telemetry/tlv.go:226-255 | Decoding `count` entries of an encoded tag area returns exactly the first `count` bindings |
| Tlv.FixedReads | core/telemetry/tlv.go:110-150 | The five fixed fields read back, the tag count modulo 65536 and the timestamp with its sign |
| Tlv.HeaderReads | core/telemetry/tlv.go:41-66 | A written header is read back with its creation time |
| Tlv.HeaderAcceptedIff | core/telemetry/tlv.go:51-66 | Sixteen bytes are a header if and only if they begin with 83, 67, 84, 76 and the version 1, 0; other first four bytes are the magic error, another version behind the right ones is the version error |
| Tlv.ShortHeaderTruncates | core/telemetry/tlv.go:51-58 | Fewer than sixteen bytes are the truncated-header error, whatever they are |
| Tlv.HeaderLayout | core/telemetry/tlv.go:41-48 | The sixteen bytes of a written header, one by one, the creation time in base 256 with the least digit first |
| Tlv.FixedLayout | core/telemetry/tlv.go:73-90 | Each byte of the fixed part of a record: timestamp, event type, number of tags, size of the tags and size of the detail at offsets 0, 8, 10, 12 and 16, least significant byte first |
| Tlv.RecordLayout | core/telemetry/tlv.go:69-107 | A record is its fixed part, its tags and its detail; a tag is its key and its value, each behind its length in two bytes |
| Tlv.SortedKeysAreSorted | core/telemetry/tlv.go:189-199 | The order in which tags are written is the strictly ascending byte order of their keys |
| Tlv.LessIsLexicographic | core/telemetry/tlv.go:189-199 | That order is the one of Go strings: a proper prefix first, else the first byte that differs decides |
| Bytes.LittleEndianReads | core/telemetry/tlv.go:41-107 | A little-endian field of n bytes reads back modulo 256 to the n, negative numbers included |
| Bytes.LittleEndianAt | core/telemetry/tlv.go:41-107 | Byte k of such a field is digit k of the number in base 256 |
| Bytes.BigEndianAt | connector/browser/cdp/websocket.go:161-179 | In the big-endian fields of WebSocket frames it is the digit counted from the other end |
| TelemetryLog.WriteHeader | core/telemetry/tlv.go:41-48 | Appends the 16 header bytes |
| TelemetryLog.ReadHeader | core/telemetry/tlv.go:51-66 | Truncated, wrong magic, wrong version or the creation time, in that order of checks |
| TelemetryLog.EncodeRecord | core/telemetry/tlv.go:69-107 | The sequence of writes appends exactly the encoding of the record |
| TelemetryLog.DecodeRecord | core/telemetry/tlv.go:110-185 | The sequence of reads returns and consumes what the decoding function says, EOF only at a clean end |
| TelemetryLog.EncodedTags | core/telemetry/tlv.go:189-223 | Size pass and fill pass together give the concatenated entries in key order, and the truncated count |
| TelemetryLog.FillTags | core/telemetry/tlv.go:205-220 | The buffer filled by offset holds the concatenated entries |
| TelemetryLog.DecodedTags | core/telemetry/tlv.go:226-255 | The offset loop with its four bounds checks computes the recursive decoding |
| TelemetryLog.Writer.Write | core/telemetry/writer.go:20-31 | After any sequence of writes the sink holds one header and the records accepted so far; a closed writer refuses and writes nothing |
| TelemetryLog.Reader.Next | core/telemetry/reader.go:27-40 | Each call peels one record off what remains to be read, and the error ends it; a closed reader refuses |
| TelemetryLog.Dump | cmd/scrutineer/logdump.go:31-42 | The dump loop ends on every input and returns all records up to the first error |
| WebSocket.FrameRoundTrip | connector/browser/cdp/websocket.go:144-284 | For every opcode below 16, mask and payload under 2^63 bytes, reading a written frame followed by any tail returns opcode and payload and leaves the tail, across all three length forms (RFC 6455, sections 5.2 and 5.3) |
| WebSocket.FrameReads | connector/browser/cdp/websocket.go:231-284 | The same at any position of a longer stream |
| WebSocket.HeaderOnWire | connector/browser/cdp/websocket.go:149-179 | The bytes of a frame's header by value (RFC 6455, section 5.2): final bit with opcode, mask bit with the length or the marker 126 or 127, and the extended length with its most significant byte first |
| WebSocket.MaskOnWire | connector/browser/cdp/websocket.go:181-197 | The four bytes in front of a masked payload are the mask, and byte i behind them is the exclusive-or of payload byte i with mask byte i mod 4 (RFC 6455, section 5.3) |
| WebSocket.PlainOnWire | connector/browser/cdp/websocket.go:231-284 | An unmasked frame, as servers send it, ends in its payload |
| WebSocket.PayloadOnWire | connector/browser/cdp/websocket.go:262-283 | What is read of any frame: with the mask bit each payload byte is the exclusive-or of its byte of the stream with its byte of the mask in front, otherwise the bytes of the stream |
| WebSocket.CutFrameFails | connector/browser/cdp/websocket.go:231-284 | A frame cut anywhere before its end cannot be read |
| WebSocket.TextFramesAgree | connector/http/graphql/subscription.go:227-261 | `buildTextFrame` emits the same bytes as `writeFrame` with the text opcode |
| WebSocket.PongReadsIffShort | connector/http/graphql/subscription.go:385-402 | `buildPongFrame` makes a readable pong if and only if the payload has at most 125 bytes |
| WebSocket.LastFrameDecides | connector/browser/cdp/websocket.go:204-228 | Frames that end no message are skipped and every ping among them is collected once, in order; then a text frame gives its text, a close frame the end, and in subscription.go any other opcode the error that names it (RFC 6455, sections 5.5.1 to 5.5.3) |
| WebSocket.PongsAnswerPings | connector/browser/cdp/websocket.go:214-217 | On the output of either loop the peer reads one pong for each of its pings of at most 125 bytes, in their order and with their payloads |
| WebSocket.UnmaskMask | connector/browser/cdp/websocket.go:188-196 | Masking twice with the same key gives the payload back |
| WebSocket.XorUndoes | connector/browser/cdp/websocket.go:188-196 | Exclusive-or with the same number twice is the identity |
| WebSocket.Conn.WriteFrame | connector/browser/cdp/websocket.go:144-200 | Appends exactly one masked frame with a fresh mask, whose bytes stand in front of the payload bytes combined with them one by one, or refuses and writes nothing when closed |
| WebSocket.Conn.ReadFrame | connector/browser/cdp/websocket.go:231-284 | The sequence of reads returns the frame at the current position and moves behind it, or fails |
| WebSocket.Conn.ReadMessage | connector/browser/cdp/websocket.go:204-228 | This loop, and with `strict` the one in subscription.go:321-382: the outcome, the position after it, one pong per ping in order on the output, and after a server close the close frame and the closed flag (only here) |
| WebSocket.Unmask | connector/browser/cdp/websocket.go:277-281 | The in-place loop combines byte i of the payload with byte i mod 4 of the mask |
| Weight.SelectionIsExact | core/fleet/weight.go:7-24 | For non-negative weights, exactly w[i] of the draws below the sum select index i |
| Weight.CoverUnique | core/fleet/weight.go:17-22 | A draw selects one index only |
| Weight.SelectByDraw | core/engine/dispatcher.go:157-167 | The shared loop returns the index whose stretch contains the draw, so the fallback after the loop is never reached |
| Weight.SelectByWeight | core/fleet/weight.go:7-24 | The fleet version: the drawn index, or 0 when all weights are zero |
| Weight.DistributionIsProportional | core/fleet/weight.go:29-60 | The shares add up to the total, each is floor(T*w/W) or one more, and a bin of weight zero gets nothing |
| Weight.RemainderFits | core/fleet/weight.go:49-57 | The remainder is smaller than the number of bins with positive weight, so the handing-out loop ends before its index reaches the number of bins |
| Weight.DistributeByWeight | core/fleet/weight.go:29-60 | The in-place increments end with shares that sum to the total, each floor(T*w/W) or one more, the extra ones going to the first bins of positive weight in bin order, and to the heaviest exactly under the condition below; all zeros when the weights sum to zero |
| Weight.HeaviestFirstIff | core/fleet/weight.go:26-60 | The remainder goes to the heaviest bins, as documented, if and only if no positive weight behind the first r positive ones is heavier than one of them, r being the remainder |
| Weight.LighterBinIsFavoured | core/fleet/weight.go:26-60 | An input that breaks the documented rule: sharing 2 by the weights 1 and 2 gives 1 and 1 |
| Weight.HandOut | core/fleet/weight.go:49-57 | The remainder loop, which terminates and stays inside the bins |
| FleetPool.Orchestrator.CheckTTL | core/fleet/orchestrator.go:103-157 | Over any run, for every provider, hosts added or acquired equal the pool plus those released plus those lost. On success a host has left a pool only at an age, in nanoseconds, of at least the limit in minutes times 60,000,000,000. The check succeeds if and only if every provider with expired hosts can replace and release them, and then exactly those are exchanged. When every `Acquire` succeeds nothing is lost; when no release fails, something is lost only if an `Acquire` fails. What is lost are the expired hosts of the provider whose `Acquire` failed |
| FleetPool.Orchestrator.Recycle | core/fleet/orchestrator.go:113-154 | One provider's turn: the acquire error if and only if hosts are expired and `Acquire` has no replacements, success if and only if none are expired or they are replaced and released, and the exact pool and ledgers of each case |
| FleetPool.Orchestrator.SelectHost | core/fleet/orchestrator.go:71-83 | Returns the first host and rotates the pool, or reports an empty pool and changes nothing |
| FleetPool.Orchestrator.AddHosts | core/fleet/orchestrator.go:86-90 | Appends to one pool and books the hosts |
| FleetPool.Orchestrator.Teardown | core/fleet/orchestrator.go:160-181 | Every provider's pool is empty afterwards and was passed to `Release` whole, whatever fails; an error is reported exactly when a release of a non-empty pool or a provider teardown fails |
| FleetPool.SplitKeepsHosts | core/fleet/orchestrator.go:121-131 | Expired and remaining hosts together are the pool, as multisets |
| FleetPool.RecyclingKeepsSize | core/fleet/orchestrator.go:121-148 | When `Acquire` returns the requested number, the pool keeps its size, loses exactly the hosts whose age has reached the limit (minutes, compared in nanoseconds), as often as they are in it, and keeps all others |
| FleetPool.AgeDecides | core/fleet/orchestrator.go:121-131 | Each host of a pool is expired or remains by its age alone: expired from `ttl` times 60,000,000,000 nanoseconds on |
| FleetPool.SplitKeepsOrder | core/fleet/orchestrator.go:121-131 | Neither half changes the order of its hosts |
| FleetPool.Orchestrator.DueByAge | core/fleet/orchestrator.go:103-131 | What `CheckTTL` treats as due for a provider: with a positive limit exactly the hosts that have reached that age, without one none |
| FleetPool.FullRoundRestores | core/fleet/orchestrator.go:79-82 | n selections from a pool of n return each host once, in order, and restore the pool |
| FleetPool.RotatedIs | core/fleet/orchestrator.go:79-82 | After k selections the pool is rotated by k, and the first k hosts were returned |
| ShellArgs.WordsRoundTrip | connector/cli/options.go:50-86 | Words written in any mixture of plain pieces, single-quoted pieces and double-quoted pieces with the necessary or all possible backslashes, with any spaces and tabs between them, split back into the list without its empty words, so into the list itself if and only if no word is empty |
| ShellArgs.OpenQuoteFails | connector/cli/options.go:77-79 | A quote of either kind opened behind any such words and never closed is the error |
| ShellArgs.WordReads | connector/cli/options.go:57-76 | The pieces of a word are collected into one word, whatever their forms |
| ShellArgs.BackslashedReads | connector/cli/options.go:59-62 | Between double quotes a backslash makes any character stand for itself |
| ShellArgs.ParseShellArgs | connector/cli/options.go:50-86 | The loop computes the recursive splitting; the two quote flags are never both set; an open quote at the end is the error |
| Dependencies.ResolveTransitiveDeps | connector/grpc/reflect.go:157-174 | For every fetcher that answers with files of a finite universe and with which the loop ends: it returns files that miss nothing, or an error of the fetcher; with a fetcher that answers with the file asked for and otherwise only files it reaches, exactly the least dependency-closed superset of the initial files |
| Dependencies.EndsIffNeverStalls | connector/grpc/reflect.go:157-174 | The loop ends if and only if no round that asks for names and does not fail adds nothing |
| Dependencies.SilentServerSpins | connector/grpc/reflect.go:157-174 | A server that answers nothing to every missing name keeps the loop running for ever |
| Dependencies.FaithfulEnds | connector/grpc/reflect.go:157-174 | With a fetcher that answers with the file asked for it always ends |
| Dependencies.EndIsClosure | connector/grpc/reflect.go:157-174 | With such a fetcher that adds only files reachable from the one asked for, what it ends with is the closure |
| Dependencies.ClosureIsUnique | connector/grpc/reflect.go:157-174 | That set of files is unique, so the order of the fetches does not matter |
| Dependencies.CollectMissingDeps | connector/grpc/reflect.go:99-115 | Exactly the dependency names that no file has |
| Dependencies.FetchAll | connector/grpc/reflect.go:164-172 | One round, in any order of the names: all replies are added, or a failing name's error is returned |
| Dependencies.MissingIsNeeded | connector/grpc/reflect.go:99-115 | A name missing on the way to the closure is in every closed superset of the initial files |
| YamlBlock.BlockRoundTripIffSafe | core/yaml/parser.go:126-270 | For every tree and every layout: keys and scalars plain, in single quotes, in double quotes or with escape sequences, `key: value` or nested lines two spaces further in, sequences of anything, flow collections anywhere, blanks around colons, blank lines and comments before and behind lines, LF or CRLF. What is loaded is the tree if and only if no mapping of one pair that is the last item of a block sequence has a key for the next token |
| YamlBlock.BlockRoundTrip | core/yaml/parser.go:126-270 | Without mapping items of one pair every tree comes back, in every layout |
| YamlBlock.NextKeyIsSwallowed | core/yaml/parser.go:126-169 | The failing input: for any texts, a list whose only item is `a: v`, in front of `key: w`, is loaded with `key: w` inside the item |
| YamlBlock.EmptyFirstValueSwallows | core/yaml/parser.go:176-205 | For any texts, `- a:` in front of `  b: v` is loaded with `b: v` as the value of `a` |
| YamlBlock.BlockDocumentParses | core/yaml/parser.go:86-270 | The tokens of a document parse to its tree if and only if it is safe in that sense |
| YamlBlock.PairsParseBlock | core/yaml/parser.go:126-169 | A mapping of any indentation takes exactly its own pairs, or gives another answer when one of them is not safe |
| YamlBlock.InlinePairsParse | core/yaml/parser.go:126-169 | A mapping behind a dash takes the indentation of its second key for its own; with one pair it is read right exactly if no key follows |
| YamlBlock.ItemsParseBlock | core/yaml/parser.go:219-270 | A sequence of any indentation takes exactly its own items, under the same condition |
| YamlBlock.ValueParsesBlock | core/yaml/parser.go:176-217 | A value of any form, nothing included, is recognised as belonging to the key above it |
| YamlLayout.BlockDocumentScans | core/yaml/scanner.go:154-242 | The printed document scans to exactly its tokens, each key and dash at the start of a line with the indentation of the line, and keys behind a dash with 0 |
| YamlLayout.PairsScanBlock | core/yaml/scanner.go:154-242 | The lines of a mapping scan to the tokens of its pairs, from the start of a line to the start of a line |
| YamlLayout.ItemsScanBlock | core/yaml/scanner.go:183-187 | The lines of a sequence scan to the tokens of its items |
| YamlLayout.GapSkips | core/yaml/scanner.go:424-456 | Any blank lines and comments before a line are skipped |
| YamlFlow.FlowRoundTrip | core/yaml/parser.go:272-364 | Every flow collection, with keys and scalars plain, in either quotes or with escape sequences, empty values of keys left out or not, a comma behind the last item or not, blanks before and behind colons and before closing brackets and commas, and blank lines and comments behind the others, loads as that tree (YAML 1.2.2, sections 7.3 and 7.4) |
| YamlFlow.PairInSequenceSplits | core/yaml/parser.go:346-364 | `[k: v]` loads as the two items k and v, and not as a mapping of one pair |
| YamlFlow.FlowScans | core/yaml/scanner.go:154-306 | A flow collection in block context scans to exactly the tokens of the tree and leaves the depth at 0 |
| YamlFlow.ValueScans | core/yaml/scanner.go:244-306 | A printed value scans to its tokens at any position and flow depth, and leaves the depth as it was |
| YamlFlow.PairsScan | core/yaml/scanner.go:244-306 | The same for the pairs of a mapping up to its brace |
| YamlFlow.ValueParses | core/yaml/parser.go:346-364 | The tokens of a tree at any position parse to that tree and the position behind it |
| YamlText.BlockPlainKey | core/yaml/scanner.go:347-399 | A plain text of block context with a colon and white space behind it is a key: its kind, its text without the blanks before the colon, its indentation, and where scanning goes on |
| YamlText.BlockPlainScalar | core/yaml/scanner.go:347-422 | Alone on the rest of its line, but for blanks and a comment, it is a scalar and no key |
| YamlText.FlowPlainReads | core/yaml/scanner.go:308-335 | In flow context a plain text is read whole, without the blanks behind it, up to a bracket, a comma or its colon |
| YamlText.BlockKeyReads | core/yaml/scanner.go:154-242 | The same for a key in any of the forms |
| YamlText.BlockScalarReads | core/yaml/scanner.go:154-242 | And for a scalar in any of the forms |
| YamlText.DoubleReads | core/yaml/scanner.go:489-530 | A double-quoted text with escaped quotes and backslashes reads back as the text |
| YamlText.EscapedReads | core/yaml/scanner.go:499-523 | So does one in which every line feed, tab, carriage return, slash, quote and backslash is an escape sequence |
| YamlText.OtherEscapesStay | core/yaml/scanner.go:520-522 | Before any other character the backslash stays in the text |
| YamlText.SingleReads | core/yaml/scanner.go:489-530 | Between single quotes every other character, backslashes included, is taken as it is |
| YamlScanner.TokenAt | core/yaml/scanner.go:147-306 | On every input each token other than the end consumes at least one character, which is why `ScanAll` terminates |
| YamlScanner.Scanner.ScanAll | core/yaml/scanner.go:100-112 | The loop terminates on every input, returns the recursive reading, and `flowDepth` is never negative |
| YamlScanner.Scanner.NextToken | core/yaml/scanner.go:147-152 | Flow or block context by `flowDepth`; position and depth change as the token says |
| YamlScanner.Scanner.NextBlockToken | core/yaml/scanner.go:154-242 | Indentation, comments, blank lines and the choice of the token |
| YamlScanner.Scanner.NextFlowToken | core/yaml/scanner.go:244-306 | Brackets, commas, quoted and plain scalars, keys inside flow collections |
| YamlScanner.Scanner.ReadFlowPlain | core/yaml/scanner.go:308-335 | A plain scalar up to a flow indicator, or a key up to its colon |
| YamlScanner.Scanner.ReadBlockLine | core/yaml/scanner.go:347-422 | A plain line, a key when it holds a colon outside quotes with white space behind it, else a scalar; what that gives for the texts of a document are `BlockPlainKey` and `BlockPlainScalar` |
| YamlScanner.Scanner.SkipBlankLines | core/yaml/scanner.go:424-456 | Blank and comment lines are skipped, and the position is restored before the first line with content |
| YamlScanner.Scanner.ReadQuotedString | core/yaml/scanner.go:489-530 | The text up to the first matching quote, with the escapes of double-quoted texts replaced; an open quote or an open escape is an error |
| YamlScanner.Scanner.ReadBlockScalar | core/yaml/scanner.go:532-612 | Lines of a literal or folded block, by the indentation of its first line |
| YamlScalars.LinesRead | core/yaml/scanner.go:532-588 | Lines printed with an indentation beyond their parent's read back as the lines, with their own leading spaces, those of nothing but spaces as empty, up to a line indented less |
| YamlScalars.BlockScalarLoads | core/yaml/scanner.go:532-612 | A document whose first value is a literal or folded block: the block is its lines, each with a line feed, or its paragraphs folded; empty lines at its end are dropped, and the pairs behind it are read as in any document |
| YamlScalars.FoldedParagraphs | core/yaml/scanner.go:595-612 | Folding joins the lines of a paragraph by single spaces and separates paragraphs by an empty line |
| YamlScalars.CarriageReturnAddsLine | core/yaml/scanner.go:544-583 | A line of a block that ends in CRLF is followed by an empty line that nobody wrote |
| YamlParser.Parse | core/yaml/parser.go:56-69 | Scanner and parser in a row, the scanner's error first |
| YamlParser.Parser.ParseDocument | core/yaml/parser.go:86-124 | The first token decides the form of the document |
| YamlParser.Parser.ParseBlockMapping | core/yaml/parser.go:126-169 | The loop over keys computes the recursive pairs, stopping at a smaller indentation |
| YamlParser.Parser.ParseMappingValue | core/yaml/parser.go:176-217 | Nested mapping, sequence, scalar or nothing, by the indentation of the next token |
| YamlParser.Parser.ParseBlockSequence | core/yaml/parser.go:219-270 | The loop over dashes of one indentation computes the recursive entries |
| YamlParser.Parser.ParseFlowSequence | core/yaml/parser.go:272-296 | The loop over items and commas computes the recursive items, with its error for an open bracket |
| YamlParser.Parser.ParseFlowMapping | core/yaml/parser.go:298-344 | The loop over keys computes the recursive pairs, with its error for an open brace |

## Left out

- Weight.SelectByDraw: negative weights, with which the running sum is not monotone, and overflow of the sum.
- Weight.SelectByWeight: negative weights, as above; the random source is a parameter.
- Weight.DistributeByWeight: negative weights and totals, and overflow of the product.
- Engine.WeightedDispatch: negative weights, which the engine never passes on.
- Dependencies.ResolveTransitiveDeps: replies outside a finite universe, or different replies to the same name; the model returns the new map instead of updating the caller's.
- WebSocket.FrameRoundTrip: payloads of 2^63 bytes and more. On a frame that announces such a length the reader's allocation panics, where the model reports a read error; memory is not modelled.
- TelemetryLog.AnyPrefixReads: I/O errors other than the end of the stream.
- TelemetryLog.Writer.Write: a sink that is not empty at the start, a failing sink, and the lock around each write.
- Tlv.RecordDecodes: what a record with longer fields decodes to instead of itself.
- Engine.LoopRun: the clock; duration and interval are the moments at which a cancellation is seen.
- Engine.RunSuite: panics in tests, cancellation, a duration, and a failing fleet setup. The records of concurrent workers are computed first and recorded in an arbitrary interleaving, since no test reads the result object.
- FleetPool.Orchestrator.CheckTTL: `Acquire` and `Release` are parameters; other calls between its two locked sections, and time-to-live values that overflow a duration, are not modelled.
- ExprParser.ParseNumber: float64 values; a number keeps its spelling. Which texts with one dot ParseFloat accepts beyond those the lexer can read (exponents, a missing digit, hexadecimal) is a parameter.
- ExprEvaluator.Evaluator.Eval: conversion of a literal beyond 2^53 through float64 to an integer, and the built-in functions, which are arbitrary.
- Fixture.Store.Resolve: the environment is a parameter, and so is the `%v` formatting of values.
- Dispatch.UncancelledRunsComplete: which panic value is raised again; panics are only recorded. A panic in the pool ends the program and is not modelled.
- CdpClient.RunKeepsInv: events and subscriptions, JSON, and overflow of the 64-bit id.
- YamlBlock.BlockRoundTripIffSafe: indentation by other widths than two, blanks behind a dash, an empty value left out behind the first key of an item, comments with a colon or a quote behind a plain scalar, and literal and folded blocks except as the first value of a document.
- YamlFlow.FlowRoundTrip: keys without a colon in flow mappings, and what an open bracket or brace gives beyond the error of the loops.
- UTF-8: characters are the unit of all texts, Unicode categories are tables of which only the ASCII part is fixed, and invalid UTF-8 does not occur.
- YAML line and column numbers, interpretation of scalars as numbers and booleans, and decoding into Go values.
- WebSocket handshakes, close frames built by the client, deadlines and the GraphQL message layer; the frame reader inside `readTextFrame` repeats `readFrame` and is modelled once.
- gRPC streams, descriptors and value coercion.
- Fleet setup, provider selection by configuration, command execution and the drivers.
- Assertions, configuration, schema validation, reporters, coverage, telemetry tags of the engine, connectors and ramp-up: mostly single-branch facts.

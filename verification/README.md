# Models and proofs for gemini-cpp

This project models the repository's concurrent data structures (the reference solutions under
`tasks/`) and its client pipeline (`src/`), and proves properties of the models.

| file | models |
|---|---|
| `ThreadPool.dfy`, `ThreadPoolSections.dfy` | a mutex, two condition variables, a FIFO queue and a draining shutdown, as interleaved steps; the critical sections in place |
| `SpscQueue.dfy`, `SpscObserver.dfy`, `SpscRing.dfy` | two wrapping counters and a ring, each load, construction, destruction and publication a step; acquire loads may be stale. A third thread that calls size_approx. The steps in place on an array, and the member functions made of them |
| `LruCache.dfy` | a list of heap nodes and an index into it, against a definition by history |
| `ParseDuration.dfy`, `DurationRules.dfy` | the duration grammar, its 64- and 128-bit arithmetic, and how exact it is; the notation in literal characters and amounts |
| `Semver.dfy`, `SemverRules.dfy` | the version grammar and precedence; both again in literal characters and cases |
| `TokenBucket.dfy` | refilling, acquiring and waiting, over exact numbers |
| `ExpressionTrees.dfy`, `ExpressionGrammar.dfy`, `ExpressionParser.dfy`, `ExpressionEquivalence.dfy`, `ExpressionUnambiguity.dfy`, `ExpressionRoundTrip.dfy`, `ExpressionRules.dfy` | the expression evaluator: trees and values, the grammar, the recursive-descent parser, their equivalence, uniqueness of readings, printing with and without blanks; characters, operators, functions and limits written out |
| `Sse.dfy`, `SseRules.dfy`, `Types.dfy`, `MergeGrouping.dfy`, `Retry.dfy`, `Client.dfy`, `StreamOutcomes.dfy` | the streaming client: incremental event parsing and what an event stream is, merging of chunks and of aggregates, retries, the whole call, and what a call comes to for each status and error |
| `Chat.dfy`, `ChatRules.dfy` | chat sessions with tools; what they and the repair loop say and answer, written out |
| `Runner.dfy`, `WorkDistribution.dfy`, `WorkSharing.dfy` | the repair loop of an evaluation task, and the workers that share the tasks, as interleaved steps and in place |
| `Process.dfy` | the capture of a child's output with its start marker removed |
| `Arithmetic.dfy`, `Numerals.dfy`, `Sequences.dfy`, `Strings.dfy`, `Wrappers.dfy` | shared definitions |

Conventions. A `char` stands for a byte. Code that works by changing its fields is a class whose
methods are proved against functions of the same meaning, and the theorems are about those functions;
the thread pool, the lock-free queue and the work distribution are systems of steps, and the
theorems are about every run. A file whose name ends in Rules or Outcomes proves that the definitions of the
others come to what they should in literal characters, numbers and cases. What the program gets from outside is an arbitrary input: a transport is
any script of byte pieces and errors, a payload parser and a callback are any functions, a model is any
script of replies, the clock reading and the random factor are arguments.

Where the code differs from what its documentation says, the model follows the code:

- `tasks/spsc-queue/reference.hpp:53` says that unsigned wrap-around keeps the arithmetic correct. It
  does so exactly if the capacity divides the counter range (`SpscQueue.FaultFreeIffDivides`).
- `tasks/spsc-queue/task.json:11` promises that size_approx is never larger than the capacity. To a third
  thread `tasks/spsc-queue/reference.hpp:41-45` can return more; `SpscObserver.WithinCapacityIff` says
  exactly when not.
- `tasks/parse-duration/task.json:14` promises truncation at nanosecond precision. With more than 18
  fraction digits, minutes and hours can come out one nanosecond low; `DurationExactness.PairExactness`
  says exactly when.
- `src/retry.cpp:15-20` applies jitter after the cap, so a delay can exceed `max_backoff`
  (`Retry.DelayCanExceedCap`); `Retry.CappedIffScaledIsCapped` says exactly when it cannot.
- `src/eval/process.cpp:127-145` can capture an output that overflows the cap differently depending on how
  it is divided into reads, if its marker ends less than a read before the cap;
  `MarkerCapture.CuttingMattersIff` says exactly when, for reads of any size.

## Model

| member | source | states |
|---|---|---|
| ThreadPool.StepKeepsInv | tasks/thread-pool/reference.hpp:26-77 | every step of every thread, spurious wake-ups included, keeps the invariant from which the theorems below follow |
| ThreadPool.QueuedWorkIsAnnounced | tasks/thread-pool/reference.hpp:35-69 | no lost wake-up: while a worker is parked, outstanding notifications plus awake workers number at least the queued jobs, although submit notifies outside the lock |
| ThreadPool.QueuedWorkIsAttended | tasks/thread-pool/reference.hpp:59-77 | with jobs queued and no notification outstanding, some worker is awake |
| ThreadPool.StartedInOrder | tasks/thread-pool/reference.hpp:43-73 | started jobs followed by queued ones are the submissions in order; `active_` counts the workers between taking a job and accounting for it |
| ThreadPool.ShutdownDrains | tasks/thread-pool/reference.hpp:26-33 | when the last worker has exited every job ever submitted, also by running jobs during shutdown, has been started once, in order, and has finished |
| ThreadPool.IdleWakesWaiters | tasks/thread-pool/reference.hpp:51-75 | no caller of wait_idle stays blocked when the queue is empty and no job is active |
| ThreadPool.WaitIdleReturnsWhenDone | tasks/thread-pool/reference.hpp:51-54 | when wait_idle lets a caller go, everything submitted so far has finished |
| ThreadPool.WaitIdleReturnsIffDone | tasks/thread-pool/reference.hpp:51-54 | in every run a caller that tests is let go if and only if everything submitted has finished, and blocks otherwise |
| ThreadPool.WaitIdleReturns | tasks/thread-pool/reference.hpp:51-75 | once everything submitted has finished, every caller of wait_idle that has not returned can take a step and then has |
| ThreadPool.OnlyTestsReturn | tasks/thread-pool/reference.hpp:51-75 | a caller of wait_idle is let go by its own test only, and the end of a job sends the blocked ones to test exactly when no job is queued or running |
| ThreadPool.AllDoneIff | tasks/thread-pool/reference.hpp:35-75 | everything submitted has finished exactly when the queue is empty and no worker runs a job |
| ThreadPool.SubmitAndTake | tasks/thread-pool/reference.hpp:43-69 | a submission goes to the end of the queue; a worker that looks takes the oldest job not started, and with none waits, or leaves once the destructor has begun |
| ThreadPool.RunningJobsMaySubmit | tasks/thread-pool/reference.hpp:35-49 | a running job can submit another, also after the destructor has begun |
| ThreadPool.NotifiedOnce | tasks/thread-pool/reference.hpp:43-47 | every submission from outside is followed by one notification |
| ThreadPool.ThreadCount | tasks/thread-pool/reference.hpp:17-21 | a pool has as many workers as asked for, and one if none, from beginning to end |
| ThreadPool.JoinIsBounded | tasks/thread-pool/reference.hpp:26-33 | after notify_all a run of worker steps is bounded by the work left and the jobs still submitted |
| ThreadPool.JoinNeverStalls | tasks/thread-pool/reference.hpp:26-33 | until every worker has exited one of them can take a step that submits nothing |
| ThreadPoolSections.Pool.Take | tasks/thread-pool/reference.hpp:60-69 | the critical section in place is the step of the model: waits, takes the oldest job, or leaves only when stopping and drained |
| ThreadPoolSections.Pool.WorkerLoop | tasks/thread-pool/reference.hpp:59-77 | during shutdown a worker left alone runs all queued jobs in order and then exits |
| SpscQueue.StepKeepsInv | tasks/spsc-queue/reference.hpp:18-50 | every step keeps counters, slots and history in agreement as long as slots are consecutive |
| SpscQueue.FirstInFirstOut | tasks/spsc-queue/reference.hpp:23-39 | under stale loads the popped elements are a prefix of the pushed ones and never more than the capacity lie between |
| SpscQueue.TestsAreExact | tasks/spsc-queue/reference.hpp:24-33 | the equality tests on wrapped counters refuse a push, and find nothing to pop, exactly when the queue is full, or empty, as far as the thread sees |
| SpscQueue.NoSharedSlot | tasks/spsc-queue/reference.hpp:23-39 | producer and consumer never hold the same slot |
| SpscQueue.DestructorDrains | tasks/spsc-queue/reference.hpp:18-21 | after the destructor all that was constructed has been destroyed once and has come out in order |
| SpscQueue.DestructorEnds | tasks/spsc-queue/reference.hpp:18-21 | the destructor ends exactly when everything pushed has been popped |
| SpscQueue.StaleRefusals | tasks/spsc-queue/reference.hpp:23-39 | runs in which an empty queue refuses a push and a queue with an element refuses a pop, since the counter seen is out of date |
| SpscQueue.WrapFaults | tasks/spsc-queue/reference.hpp:50-55 | if the capacity does not divide the counter range, some run constructs in a slot that is in use |
| SpscQueue.FaultFreeIffDivides | tasks/spsc-queue/reference.hpp:50-55 | every run is free of such faults if and only if the capacity divides the counter range |
| SpscQueue.SizeApproxOfOwners | tasks/spsc-queue/reference.hpp:41-45 | called by producer or consumer, size_approx stays within the capacity and errs on the side the caller can live with |
| SpscObserver.SizeApproxOfOthers | tasks/spsc-queue/reference.hpp:41-45 | the tail that a third thread loads is never before the head it has loaded; the result is their distance in the counter range, and exceeds the capacity by at most the pops it did not see |
| SpscObserver.SizeApproxReaches | tasks/spsc-queue/reference.hpp:41-45 | every excess up to the number of unseen pops is the result of some run |
| SpscObserver.WithinCapacityIff | tasks/spsc-queue/reference.hpp:41-45 | as long as slots are consecutive, all results that miss a given number of pops are within the capacity if and only if that number is 0, or the counters can hold no more than the capacity |
| SpscRing.Queue.TryPush | tasks/spsc-queue/reference.hpp:23-29 | the steps in place, with a stale load and the consumer stopped anywhere: appends the element, or refuses exactly when the queue is full as far as the producer sees |
| SpscRing.Queue.TryPop | tasks/spsc-queue/reference.hpp:31-39 | gives back the oldest element, or none exactly when the queue is empty as far as the consumer sees |
| SpscRing.Queue.Dispose | tasks/spsc-queue/reference.hpp:18-21 | the loop ends with every slot raw and everything pushed given back in order |
| Recency.RunIsHistory | tasks/lru-cache/reference.hpp:14-36 | after any run the list is the first `capacity` distinct keys in most-recently-touched order, each with its last put value; a missed get touches nothing |
| Recency.HeldWhileRecent | tasks/lru-cache/reference.hpp:14-36 | a key is held exactly while fewer than `capacity` other keys have been touched since its own last touch |
| Recency.RecentIsDistinct | tasks/lru-cache/reference.hpp:14-36 | the recency order has each touched key once |
| Recency.BeforeIsSince | tasks/lru-cache/reference.hpp:14-36 | the keys before one in the recency order are exactly those touched since it |
| LruCaches.LruCache.Get | tasks/lru-cache/reference.hpp:14-19 | returns the last put value of a held key, moves its node to the front, and keeps list and index pointing at the same nodes and equal to the history |
| LruCaches.LruCache.Put | tasks/lru-cache/reference.hpp:21-34 | inserts, updates or evicts so that the cache again equals its history, also for capacity 0 |
| LruCaches.LruCache.Contains | tasks/lru-cache/reference.hpp:36 | true exactly while the key is among the `capacity` most recently touched, without touching it |
| Durations.MeaningIsDenotation | tasks/parse-duration/task.json:9-16 | the grammar is unambiguous: a string denotes at most one value, and the decoder computes it |
| Durations.DecodeOfText | tasks/parse-duration/reference.hpp:21-57 | decoding the text of any sequence of pairs gives back the pairs |
| Durations.DecodeSound | tasks/parse-duration/reference.hpp:21-57 | what decodes is the text of well-formed pairs |
| DurationParsing.ParseDuration | tasks/parse-duration/reference.hpp:8-68 | returns n exactly if the string denotes n: accepts exactly the grammar with a sum in signed 64-bit range, INT64_MIN included; 64- and 128-bit operations never overflow and no early rejection loses a valid input |
| DurationParsing.ScanFraction | tasks/parse-duration/reference.hpp:33-42 | keeps the first 18 fraction digits and the matching power of ten, within 64 bits |
| DurationExactness.PairExactness | tasks/parse-duration/reference.hpp:37-59 | a pair counts for its exact value rounded down, or one nanosecond less, and less exactly when the dropped digits would carry |
| DurationExactness.FineUnitsAreExact | tasks/parse-duration/reference.hpp:37-59 | for ns to s the value is always the exact floor |
| DurationExactness.ShortFractionIsExact | tasks/parse-duration/reference.hpp:37-59 | with up to 18 fraction digits the value is always the exact floor |
| DurationExactness.HoursCanLose | tasks/parse-duration/reference.hpp:37-59 | the text .0000000000002777778h writes a nanosecond and means none |
| DurationRules.ParsesExactly | tasks/parse-duration/reference.hpp:8-68 | a string means n exactly if it is a zero, or a sign and numbers with the eight unit names whose literal amounts of nanoseconds come to n in signed 64-bit range |
| DurationRules.UnitsAre | tasks/parse-duration/reference.hpp:46-56 | digits followed by ns, us, either micro sign, ms, s, m or h mean that number times 1, 1000, 1000, 1000, 1000000, 1000000000, 60000000000 or 3600000000000 |
| DurationRules.OneFraction | tasks/parse-duration/reference.hpp:30-59 | digits, a point, at most 18 digits and a unit name mean the exact amount rounded down |
| DurationRules.FractionOfMinute | tasks/parse-duration/reference.hpp:37-59 | the same for minutes, in literal nanoseconds |
| DurationRules.DocumentedExamples | tasks/parse-duration/task.json:9-19 | 1h30m and -2m3.5s have the values that the documentation gives |
| SemanticVersions.ParseIsGrammar | tasks/semver-compare/reference.hpp:57-79 | parse accepts exactly the version grammar, with the right core and pre-release parts; a string is at most one version |
| SemanticVersions.SplitOfJoin | tasks/semver-compare/reference.hpp:33-43 | split undoes join on parts without separators |
| SemanticVersions.JoinOfSplit | tasks/semver-compare/reference.hpp:33-43 | join undoes split |
| Precedence.NumbersCompare | tasks/semver-compare/reference.hpp:45-50 | on digit strings without leading zeros, longer-is-larger comparison is comparison of unbounded naturals |
| Precedence.ListBefore | tasks/semver-compare/reference.hpp:96-110 | one identifier list precedes another exactly at the first difference, or by ending there |
| Precedence.CompareLaws | tasks/semver-compare/reference.hpp:83-111 | precedence is antisymmetric in sign and 0 exactly between versions with equal core and pre-release lists |
| Precedence.CompareTransitive | tasks/semver-compare/reference.hpp:83-111 | precedence is transitive, and strictly so if one step is strict |
| SemverCompare.CompareSemver | tasks/semver-compare/reference.hpp:83-111 | returns the precedence of two texts that are versions, and nothing exactly if one is not |
| SemverRules.ParseIsSpelling | tasks/semver-compare/reference.hpp:57-79 | a string is parsed into a version exactly if it is three numbers without leading zeros, perhaps - and identifiers, perhaps + and build identifiers, character by character |
| SemverRules.CompareIsRule | tasks/semver-compare/reference.hpp:83-111 | one version is before another, or after it, if and only if section 11 of Semantic Versioning 2.0.0 says so: by the first different core number, else by having a pre-release, else by the first difference of these, numbers before other identifiers and fewer before more |
| SemverRules.PreReleaseIsBefore | tasks/semver-compare/reference.hpp:94 | 1.0.0-alpha comes before 1.0.0 |
| TokenBuckets.StaysInRange | tasks/token-bucket/reference.hpp:19-49 | over any run with any clock and non-negative requests the tokens stay in [0, burst] and `last_` is the latest time seen |
| TokenBuckets.GrantsAreEarned | tasks/token-bucket/reference.hpp:19-49 | from any state on, tokens granted plus tokens left are at most tokens there plus tokens earned |
| TokenBuckets.RateBound | tasks/token-bucket/reference.hpp:19-49 | a new bucket grants at most burst plus rate times the largest time seen |
| TokenBuckets.RefillsAddUp | tasks/token-bucket/reference.hpp:43-49 | two refills at any times are one refill at the later time |
| TokenBuckets.LookingChangesNothing | tasks/token-bucket/reference.hpp:27-49 | any number of looks in between leave what one refill leaves |
| TokenBuckets.UntilIsLeast | tasks/token-bucket/reference.hpp:33-40 | the wait is the least whole number of nanoseconds after which the request is granted, and max() exactly if there is none |
| TokenBuckets.AcquireIsAllOrNothing | tasks/token-bucket/reference.hpp:19-25 | a refused request leaves what a look would leave; a granted one takes exactly what it asks for |
| TokenBuckets.RateIsPerSecond | tasks/token-bucket/reference.hpp:43-49 | an idle bucket earns its rate in 1000000000 nanoseconds, and in proportion, up to the burst |
| RateLimiting.TokenBucket.TryAcquire | tasks/token-bucket/reference.hpp:19-25 | grants exactly if the refilled bucket holds enough, and then takes that much |
| RateLimiting.TokenBucket.TimeUntilAvailable | tasks/token-bucket/reference.hpp:33-40 | returns the least sufficient wait from `last_`, after refilling |
| ExpressionSoundness.ParserIsGrammar | src/tools.cpp:52-240 | the evaluator accepts exactly the texts of the grammar, with any spaces and parentheses, of at most 4096 characters, nesting at most 200 deep, with a finite value, and returns that value |
| ExpressionUnambiguity.ReadingIsUnique | src/tools.cpp:52-57 | a text is written in the grammar in one way at most: two syntax trees of it, however deep, are the same, token by token |
| ExpressionSoundness.WrittenParses | src/tools.cpp:62-169 | a text written in the grammar is parsed to the value of its tree, or fails exactly if it nests too deeply, an operation fails or the value is not finite |
| ExpressionSoundness.ExprSound | src/tools.cpp:92-110 | whatever expr() accepts is an expression of the grammar with that value, and its nesting fits |
| ExpressionCompleteness.ExprParses | src/tools.cpp:92-169 | expr() gives the value of the expression that stands there and moves past it |
| ExpressionRoundTrip.RoundTrip | src/tools.cpp:52-240 | the text of a tree, with parentheses only where needed, evaluates to exactly the value of the tree under the stated limits, and fails otherwise |
| ExpressionRoundTrip.SpacedRoundTrip | src/tools.cpp:78-240 | the same for a text with any strings of spaces and tabs before its tokens and at its end |
| ExpressionRoundTrip.GapsMakeNoDifference | src/tools.cpp:78-81 | within the length limit a text with blanks evaluates to what the text without them does |
| ExpressionRules.GapsAreBlank | src/tools.cpp:78-81 | in a text of the grammar every character outside tokens is a space or a tab, and tokens have only letters, digits and operator characters |
| ExpressionRules.AcceptedCharacters | src/tools.cpp:62-240 | a text with any other character is refused |
| ExpressionRules.NumbersAreTokens | src/tools.cpp:171-185 | number tokens are digits and dots, and perhaps e or E, a sign and digits |
| ExpressionRules.OneOperation | src/tools.cpp:92-155 | each of the six operator characters applies its operation; division and remainder by zero are refused |
| ExpressionRules.TwoOperations | src/tools.cpp:92-155 | of two operators the tighter goes first, of two alike the left one, except that powers group to the right |
| ExpressionRules.SignBeforeOperation | src/tools.cpp:130-155 | a minus sign takes a power whole and goes before any other operator |
| ExpressionRules.OneCall | src/tools.cpp:195-228 | the ten function names call their functions on the arguments these take; every other name is refused |
| ExpressionRules.NestedParentheses | src/tools.cpp:76-169 | a number may stand in 99 pairs of parentheses and no more |
| ExpressionRules.SignsInARow | src/tools.cpp:76-143 | a number may have 198 signs and no more, and every minus sign negates |
| ExpressionRules.DocumentedExample | src/tools.cpp:262-266 | (2^10 - 24) / 3, blanks included, has the value it should |
| ExpressionRoundTrip.TextDeterminesTree | src/tools.cpp:52-57 | precedence and associativity are recovered: whatever is read from the text of a tree is that tree |
| ExpressionRoundTrip.PrintIsInjective | src/tools.cpp:52-57 | different trees are never written alike |
| ExpressionParsing.ExpressionParser.Expr | src/tools.cpp:92-110 | terminates by remaining text and grammar level; a success advances the position and restores the depth; the expr and unary frames past the depth check are counted, are as many as the depth says at every call, and are never more than 200 |
| ExpressionParsing.ExpressionParser.Unary | src/tools.cpp:130-143 | the same for signs, which bind looser than a power |
| ExpressionParsing.ExpressionParser.Number | src/tools.cpp:171-193 | takes the longest number token; on a malformed one the position goes back |
| ExpressionParsing.EvaluateExpression | src/tools.cpp:236-239 | the parser object computes what the parsing functions say, on every text |
| LineReading.ScanLonger | src/sse.cpp:9-24 | scanning a longer buffer is scanning the shorter one and going on from there |
| EventStream.PiecesDoNotMatter | src/sse.cpp:9-24 | feeding any pieces is feeding their concatenation at once |
| EventStream.FinishIsTwoNewlines | src/sse.cpp:26-34 | finish() shows the handler what two newlines would |
| EventStream.BodyIsFold | src/sse.cpp:9-61 | for every cutting of a body the handler is given exactly the payloads of the body, by a definition without buffering, until it says stop |
| SseRules.EventsAreWritten | src/sse.cpp:9-61 | the payloads of a text of data lines, comments and other fields, with LF or CRLF and a blank line after each event, are the data values of each event that has any, joined by line feeds |
| SseRules.ParserReadsWritten | src/sse.cpp:9-61 | for every cutting of such a text the parser hands exactly these to the handler, until it says stop |
| SseParsing.SseParser.Feed | src/sse.cpp:9-24 | the loop over complete lines computes the scan and keeps the incomplete rest |
| SseParsing.SseParser.Finish | src/sse.cpp:26-34 | handles the unfinished line and dispatches what is collected |
| Types.MergeConserves | src/types.cpp:54-87 | merging any chunks keeps, for each candidate index by itself, the exact sequence of thought-tagged characters, calls and responses, and of thought signatures |
| Types.AggregateReads | src/types.cpp:33-44 | the text and the calls read off an aggregate are those that arrived |
| Types.AggregateIsTidy | src/types.cpp:54-81 | indices stay unique and no two adjacent parts could still be glued |
| Types.MergedPartsAt | src/types.cpp:71-81 | what merging does to a candidate index depends only on what is there and what arrives for that index |
| Types.LatestWins | src/types.cpp:82-86 | usage, model version, response id and block reason are each those of the last chunk that has any |
| Types.FinishIsLatest | src/types.cpp:80 | the finish reason of an index is the last non-empty one that arrives for it |
| MergeGrouping.GroupingIff | src/types.cpp:54-87 | merging two responses first and the result into a third is the same as merging them in turn if and only if, at no index, unsigned text that would join a signed text before it is signed by later text of its kind; the second brings nothing for an index that the first names twice |
| MergeGrouping.TwiceNamedReorders | src/types.cpp:71-81 | a response that names an index twice, and another for that index, for which the two groupings differ |
| MergeGrouping.GroupingParts | src/types.cpp:54-67 | the same for lists of parts |
| MergeGrouping.SignatureCanTear | src/types.cpp:54-67 | three parts for which the two groupings differ |
| Aggregates.Aggregate.Merge | src/types.cpp:71-87 | merging in place computes the merge of the values |
| Retry.DelayBound | src/retry.cpp:9-22 | no delay exceeds max_backoff scaled by the largest random factor; without jitter, or with a server's hint, none exceeds max_backoff |
| Retry.CappedIffScaledIsCapped | src/retry.cpp:13-21 | every draw keeps the delay within max_backoff if and only if scaling by 1 + jitter, which is not drawn, gives at most one more |
| Retry.DelayCanExceedCap | src/retry.cpp:13-21 | a policy and a draw whose delay exceeds max_backoff |
| Retry.HintIsTaken | src/retry.cpp:9-11 | a server's hint is the delay, up to max_backoff |
| Retry.DelaysGrow | src/retry.cpp:13-21 | the first delay is the initial one and each later one the multiplier times the one before, up to max_backoff, times the factor drawn if there is jitter, in whole milliseconds |
| Retry.DelaysSpread | src/retry.cpp:16-21 | with jitter a delay is from 1 - jitter to 1 + jitter times the plain one, and the least of these is reached |
| Streaming.TryIgnoresCutting | src/client.cpp:170-201 | an attempt shows and returns the same for every cutting of its body, also when the caller stops or a payload does not parse |
| Streaming.TryIsFold | src/client.cpp:170-201 | what an attempt returns is the merge of exactly the chunks it has shown |
| Streaming.WholeBodyIsDelivered | src/client.cpp:170-201 | a body whose payloads parse is shown chunk by chunk and returned as their merge |
| Streaming.OnlyTheLastAttemptShows | src/client.cpp:91-108 | every attempt but the last showed nothing and failed retryably; what the caller sees is the last attempt's; retrying stopped for one of four reasons |
| Streaming.StreamGuarantees | src/client.cpp:159-207 | at most max(1, max_attempts) attempts, chunks only from the last, and a response is the merge of the chunks delivered |
| Streaming.StreamIgnoresCutting | src/client.cpp:159-207 | end to end: networks that deliver the same bodies in different pieces are the same to the caller |
| Streaming.SleepBound | src/client.cpp:91-108 | the total sleep is at most max_backoff * (1 + jitter) per retry |
| StreamOutcomes.AttemptReplies | src/client.cpp:170-201 | a payload that does not parse gives its error; a stop by the caller gives what there is; otherwise the transport's error, the server's unless the status is 200 to 299, or what there is |
| StreamOutcomes.SuccessNeedsStatus | src/client.cpp:25-31 | a response comes only from an attempt that the caller stopped or whose status was 200 to 299 |
| StreamOutcomes.AllAttemptsFail | src/client.cpp:91-108 | if every answer is an error of code server, rate limited, timeout or transport, with or without a status outside 200 to 299, and brings no event, there are exactly max(1, max_attempts) attempts and the last error is the reply |
| StreamOutcomes.FirstAttemptFails | src/client.cpp:91-108 | an error of any other code ends the call after one attempt |
| StreamOutcomes.InvalidCallFails | src/client.cpp:82-89 | an empty key, model or request fails without an attempt, in this order, and nothing else does |
| StreamOutcomes.BlockedIsError | src/client.cpp:33-38 | the reply is that of the last attempt, except that a blocked prompt without candidates is an error |
| StreamOutcomes.ParseErrorEnds | src/client.cpp:174-196 | the first payload that does not parse ends the attempt with its error, whatever the status, after the chunks before it have been shown |
| StreamOutcomes.CallerStops | src/client.cpp:174-197 | an attempt shows a caller that says stop nothing more and returns the merge of what it has shown |
| StreamOutcomes.NothingReceived | src/client.cpp:170-201 | a body without payloads makes an empty response |
| Clients.Client.Stream | src/client.cpp:159-207 | validation, retry loop, block check and counters compute what the functions say |
| Tools.Invoke | src/tools.cpp:26-46 | the response has the call's name and id and is an object; errors, exceptions and plain results are wrapped |
| Tools.LookupIsFirst | src/tools.cpp:28-44 | a call reaches the first tool of its name, and none exactly if there is none |
| ChatRules.ToolAnswers | src/tools.cpp:26-46 | the first tool of the name answers: an object as it is, another value as "result", an error or exception as "error" |
| ChatRules.UnknownTool | src/tools.cpp:44-45 | without a tool of the name the answer is an error that names it |
| ChatRules.SendIsDialogue | src/chat.cpp:15-60 | every request carries the instruction as a user turn and the tools' names in order; the first ends with the message, and each later one repeats the one before and adds the model's turn and one answer for each of its calls |
| ChatRules.SendReplies | src/chat.cpp:36-66 | a send answers with the last response, or with the error it amounts to; after a success the history is the last request and the model's turn |
| ChatRules.ToolRoundsRunOut | src/chat.cpp:36-66 | a model that always calls tools is asked max_tool_rounds + 1 times |
| ChatRules.PlainSendCounts | src/chat.cpp:40 | the four usage counts of a response are added to the session's |
| Conversations.ResetForgets | src/chat.cpp:10-13 | a reset clears history and usage |
| Conversations.FailedSendRestores | src/chat.cpp:26-66 | a failed send leaves the history exactly as it was |
| Conversations.RunKeepsTurns | src/chat.cpp:10-66 | after any run from a new session turns alternate, their number is even, and every model turn with calls is followed by responses that match one for one by name and id |
| Conversations.UsageIsNotRolledBack | src/chat.cpp:36-43 | the usage counts every response received, also in a send that failed |
| Conversations.SendEnds | src/chat.cpp:36-66 | a send stops at the first response without calls, and fails after max_tool_rounds + 1 requests; a negative maximum fails without one |
| Conversations.RequestsEndWithUser | src/chat.cpp:15-38 | every request carries the history and ends with a user turn |
| Chat.ChatSession.Send | src/chat.cpp:26-66 | the method computes the functions above and restores the history on failure |
| Repairs.RepairShape | src/eval/runner.cpp:288-319 | only the last attempt can be pass, api_error or harness_error, and repairing stops early only after one |
| Repairs.RepairTries | src/eval/runner.cpp:288-319 | one request per attempt; attempt k judges the answer to request k |
| Repairs.RepairRequests | src/eval/runner.cpp:288-319 | request r has 2r + 1 turns and repeats the one before, with the reply and the failure report added |
| TaskRunner.RunTask | src/eval/runner.cpp:260-323 | the outcome is that of the last attempt, rounds are numbered, there are at most repair_rounds + 1, and the requests are one conversation; without a prepared directory, a reference that is asked for, or a client, there is one attempt that says so |
| RepairRules.AttemptsAre | src/eval/runner.cpp:288-319 | each attempt is an API error, a reply without code or what evaluating its code gives; all but the last are compile errors, test failures, timeouts, crashes or without code, and so is the last when rounds run out |
| RepairRules.RequestsCarryPrompt | src/eval/runner.cpp:285-288 | every request of the repair loop carries the system prompt and no tools |
| WorkDistribution.JobsAre | src/eval/runner.cpp:345-352 | there are as many workers as asked for but not more than tasks, and never none |
| WorkDistribution.EveryTaskOnce | src/eval/runner.cpp:325-356 | when all workers are done each task has been run once, has its result and has been reported once |
| WorkDistribution.NothingIsOverwritten | src/eval/runner.cpp:335-343 | no two workers have the same task and no result is written over |
| WorkDistribution.RunsEnd | src/eval/runner.cpp:335-352 | a worker that is not done can always step, and every complete run has the same number of steps |
| WorkSharing.Shared.Worker | src/eval/runner.cpp:335-343 | a worker left alone writes the result of every remaining task in its place, and each is run and reported once |
| MarkerCapture.WindowMissesNothing | src/eval/process.cpp:135-137 | searching from before minus the marker's length finds what a whole search finds |
| MarkerCapture.CaptureShowsStream | src/eval/process.cpp:127-145 | for every stream and cutting the capture is the kept stream up to the cap, with its first marker taken out once that has been seen |
| MarkerCapture.CaptureIsExact | src/eval/process.cpp:127-145 | an output that fits is captured whole without its first marker, however it is cut, and unchanged if it has none |
| MarkerCapture.CaptureIsCapped | src/eval/process.cpp:130-133 | the capture never exceeds the cap |
| MarkerCapture.TruncatedIffLost | src/eval/process.cpp:130-141 | the capture is marked as truncated exactly when bytes other than the marker are missing from it |
| MarkerCapture.KeptIsLossy | src/eval/process.cpp:127-145 | what is lost depends only on where the read ends that shows the marker, and that is less than a read after the marker |
| MarkerCapture.CuttingMattersIff | src/eval/process.cpp:112-145 | for reads of at most n bytes: how an output is divided matters if and only if some read can end beyond the cap and be the first to show a marker before it, and the bytes there are not those at the cap |
| MarkerCapture.EarlyMarkerIsSafe | src/eval/process.cpp:112-145 | it does not matter if the marker ends at least a read before the cap |
| MarkerCapture.CuttingCanMatter | src/eval/process.cpp:127-145 | a concrete output that is captured in two ways |
| ProcessOutput.ProcessResult.ReadAll | src/eval/process.cpp:127-145 | the reading loop computes the capture |

## Left out

- SpscRing.Queue.TryPush: runs without the consumer moving in between, because a method body cannot be
  interleaved; interleavings are the runs of `SpscQueue`.
- ThreadPoolSections.Pool.WorkerLoop: only for a worker during shutdown while no other thread moves and no
  job submits; interleavings are the runs of `ThreadPool`.
- WorkSharing.Shared.Worker: only for a worker that no other interrupts; interleavings are the runs of
  `WorkDistribution`.
- Fairness is not modelled; the liveness lemmas say that steps remain and are bounded.
- MergeGrouping.GroupingIff: says nothing if the second response brings candidates for an index that the first
  names twice; the order of text can then differ
  (`MergeGrouping.TwiceNamedReorders`).
- SpscObserver.WithinCapacityIff: says nothing of runs past the first wrap if the capacity does not divide the
  counter range, since those can fault.
- Futures, packaged tasks, exceptions of jobs and of user callbacks, and types of elements.
- Memory orders beyond stale, monotone acquire loads that publish the slot contents.
- Floating-point rounding: buckets and delays use exact numbers, expressions an abstract algebra whose
  operations may fail, with the library's number conversion as an arbitrary function on tokens. A wait
  or a delay beyond the range of its integer type is not modelled.
- LruCaches.LruCache.Get: std::list is a sequence of node references; links between neighbours, hashing
  and running times are not modelled.
- Byte counts, token counts, indices and loop counters other than those of parse_duration and the queue
  are unbounded.
- After a failure of the expression parser only bounds on its depth counter are stated; nobody reads it.
- Transport, process creation, polling, deadlines, signals, files and the JSON library. JSON values are
  looked into only at their top level.
- `generate`, `count_tokens`, `list_models`, latency and token metrics, logging, report output and the
  command line.
- Extraction of code from replies, truncation of logs, prompts, and the classification of process
  results: they are arbitrary functions in the repair loop.
- Error messages do not have the numbers, paths and positions that the program prints in them.
- Tool observers, and handlers that throw something other than a standard exception.

# Verification of the game server's core

A Dafny model of five parts of the game server, with proofs about them. The parts have in common
that what makes them right is not visible in any one of their functions.

1. **The cooperative scheduler of rules.** `InParallelRule` and `ParallelForRule` interleave
   branches without threads. After each sub-rule every list, for-each and loop asks the callbacks of
   the game state whether to stop. A parallel rule answers "stop, you will be resumed" and notes who
   asked; the rules it noted, in reverse, are the continuation of the branch, and their rule states
   are its program counters. The model proves that this scheme does for every branch exactly what
   the branch does when it is run alone. `Rules.dfy` says what one call of `run` does; `Isolation`,
   `Coroutine` and `Interleaving` hold the theory; `ParallelRules` and `Rounds` what the loop of a
   parallel rule keeps; `Schedule` is about which branch takes which turn; `Sequential` says what a rule does without any rule states, as a plain
   recursion over its tree, and proves that a rule run alone, and so each branch, does just that;
   `Scheduler.dfy` is the `GameState` object and the `run` methods with their loops and in-place
   updates; `Timers` and `StateKeys` are about timers and the keys of rule states, and
   `BranchTimers` about what becomes of a timer in a branch.
2. **The token rewriter.** A program of inserts, replaces and deletes is reduced to one operation
   an index and then executed in one walk. `Edits` holds the two reducing walks; `EditMeaning`
   gives programs a meaning of their own, one operation after the other on a document of insertions
   and regions; `ReplaceWalk` and `InsertWalk` prove that reducing computes that meaning, errors
   included; `EditText` is about the walk that emits the text, `EditPrograms` about special
   programs, `DocTexts` about the text itself, and `Rewriter` is the object, which reduces its
   vector in place. `EditReading` and
   `ReadTwice` say exactly for which programs reading the text is an observer, and for which a
   second reading in a row gives the first text again.
3. **Lazy token streams.** `UnbufferedStream` is the sliding window with nested marks,
   `ChannelStream` the lazily filled buffer seen through a channel; both are objects over a
   `TokenSource` (`Tokens.dfy`) that must not be asked again after its end-of-file token, and both
   are specified by the full list of the source's tokens.
4. **The lexer's cache.** `LexerAtn` is the transition network with its closure and reach
   computations, `LexerRun` a match without a cache, `LexerCache` a match with one, and
   `LexerSimulator` the object that stores start states and edges. Matches are the same with and
   without a cache: in every network but for the offsets of actions (`LexerErased`), and with them as
   long as no edge is stored that leads to an offset of its own step, which is exactly as long as all
   stored edges are right (`LexerEdges`). No such edge is stored in
   networks in which no rule consumes anything after an action that depends on its position
   (`LexerTails`); `LexerOffsets` shows what happens in another. `LexerSets` and
   `LexerLanguage` relate the sets of configurations to derivations in the network, and `LexerTrails`
   says of the network alone what these are: a match takes the longest text that has a trail to the
   end of a rule, for the first rule that has one. `LexerGreed` is about non-greedy decisions.
5. **Two parsers.** `BooleanParser` is the precedence-climbing expression parser, `QueryTokens` the
   tokenizer of dotted queries. Each is proved to be the inverse of writing its result out.

Objects that update their fields are classes, and each of their methods is proved to compute a
function of the old state; the lemmas are about those functions. Recursions and loops whose end
depends on the configuration carry a bound (`gas` or `depth`); a computation that would exceed it is
`Stuck`, and the results hold for every bound.

## Where the code differs from its own documentation

The model follows the code.

- `lib/antlr/antlr4-runtime/IntStream.h:173-188` says that a seek lands on the index asked for. `UnbufferedTokenStream::seek`
  does so only if the token is in the window already or the index is past the end; else it lands one
  before (`UnbufferedTokenStream.Seek`, `Landing`).
- `lib/antlr/antlr4-runtime/IntStream.h:68-97` numbers the tokens behind the cursor from -1. In the unbuffered stream `LT(i)`
  for `i < -1` is one token further back.
- `lib/antlr/antlr4-runtime/TokenStreamRewriter.h:263-266` says that a replacement wipes out an insertion before its first
  token. The code gives the insertion's text to the replacement (`EditMeaning.Apply`).
- `lib/antlr/antlr4-runtime/TokenStreamRewriter.cpp:406-408` guards against two operations at one index as an internal error.
  It can be reached (`EditPrograms.TwoOpsHappens`); `InsertWalk.ReduceMeans` says exactly when.
- `lib/antlr/antlr4-runtime/TokenStreamRewriter.h:134-145` presents reading the text as an observer. It edits the program.
  Later edits mean the same with and without the reading exactly if no insertion that still stands is
  at a token that a replacement asked for (`EditReading.ReadingObservesText`; `ReadingObserves` adds what is to be
  said of insertions without text, `ReadingMatters` is an input where it fails). A second reading
  drops exactly the insertions that a deletion has grown over (`EditReading.SecondReading`), and gives
  the first text again exactly if none of them with text shows in the first (`ReadTwice.TextsAgain`): the
  interval read starts inside the region that has grown over it, or it stands at the end of the stream or past
  it (`ReadTwice.WholeShows`; `ReadTwice.GoneTheSecondTime` is an input where the second text differs).
- `CommonTokenStream::LB` has no guard at the start of the buffer. With one token too few it answers
  null only if the first token is off the channel, and with more it goes round the buffer
  (`ChannelStream.CommonTokenStream.LB` says where it is at each step).
- `AtMostTimer::run` takes its timer away when its branch is merely suspended. A timer in a branch of a
  parallel rule lasts for one turn (`BranchTimers.TimerTurn`), makes a difference exactly if it is late
  for one of the rules that unwind in that turn (`BranchTimers.StopsIffLate`), and else stops nothing
  however late it gets (`BranchTimers.NotLateNotThere`; `Timers.TimerLostInBranch` is an example).
- `lib/translator/include/translator.h:214-217` keeps worlds apart only for rules at addresses below 2^48
  (`StateKeys.KeyCollides`).
- The lexer stores edges for rules whose actions depend on the position. Such an edge carries the
  offset of the match that stored it into the tokens of later matches: after m times a and b, n times
  a and b gives its action the offset m (`LexerOffsets.LaterMatch`). Nothing but offsets can go wrong in
  this way (`LexerErased.MatchPlain`). An edge is right everywhere exactly if the set that it leads to does
  not have the offset of the step (`LexerEdges.EdgeExact`), which could be tested where it is stored; what a
  match stores is right exactly if that is so at each of its steps (`LexerEdges.MatchRight`). It is so in
  every match if no rule consumes anything after such an action (`LexerTails.TailActions`), as for actions
  at the end of a rule.

## Model

| member | source | states |
|---|---|---|
| Scheduler.GameState.RegisterCallback | lib/translator/include/translator.h:202 | the callback goes to the end of the list |
| Scheduler.GameState.DeregisterCallback | lib/translator/include/translator.h:203 | every entry of the callback is taken out and none of any other; the others keep their order |
| Scheduler.GameState.CheckCallbacks | lib/translator/include/translator.h:204-213 | the latest callback that wants to stop the rule decides; a timer reads the clock, a parallel rule notes the caller |
| Scheduler.GameState.RunRule | lib/translator/translator.cpp:1024-1042 | one call of run takes the game state where the big-step function Run says, for every kind of rule |
| Scheduler.GameState.RunRuleList | lib/translator/translator.cpp:125-148 | the list runs its sub-rules from its saved iterator, asks the callbacks after each, and keeps, moves or deletes the iterator as Run says |
| Scheduler.GameState.RunForEach | lib/translator/translator.cpp:996-1022 | the same for the elements of a list, each published before the body runs |
| Scheduler.GameState.RunLoop | lib/translator/translator.cpp:710-718 | the body runs while the condition, or its negation, holds and no callback stops it |
| Scheduler.GameState.RunInput | lib/translator/translator.cpp:1053-1132 | the prompt is sent once; between polls the callbacks are asked; the answer is stored and the state deleted |
| Scheduler.GameState.RunAtMost | lib/translator/translator.cpp:551-564 | deadline and callback are there for the body and gone afterwards |
| Scheduler.GameState.BranchTurn | lib/translator/translator.cpp:747-760 | one turn of a branch is exactly one call of run, of the rule on top of its stack; a parallel for publishes element w and goes to world w just before; exactly the rules noted are pushed, in reverse, and the record is cleared |
| Scheduler.GameState.RunRound | lib/translator/translator.cpp:746-761 | one pass over the table is exactly one turn of each branch in it, one after the other in its order, although entries are erased on the way; what is left of the table keeps that order |
| Scheduler.GameState.RunBranches | lib/translator/translator.cpp:745-765 | the loop makes passes until the table is empty, and nothing else: game and work left are those after n such passes |
| Scheduler.GameState.RunInParallel | lib/translator/translator.cpp:727-768 | on return each of the first 0x1_0000 branches has had exactly the events, answers and rule states of running alone, any beyond has done nothing, nothing else has changed, callbacks are those on entry; the game is what passes over the table make of it, turn by turn, so that all of the `Schedule` rows hold of the run; the loop ends |
| Scheduler.GameState.RunParallelFor | lib/translator/translator.cpp:778-836 | the same for one branch per element, each in its own world; the first 0x1_0000 elements are published, each in its world and no other, and before every event of a branch the element published last is the one of its world |
| Scheduler.GameState.Queue | lib/translator/translator.cpp:735-742 | world numbers are 16 bit and an existing entry is kept: exactly the first 0x1_0000 rules get a place, each with itself as its whole continuation |
| Scheduler.GameState.PushBack | lib/translator/translator.cpp:751-753 | the noted rules end up on the stack in the reverse of the order they were noted in |
| Isolation.RunKept | lib/translator/translator.cpp:125-148 | a run changes no rule state but those of its own tree in its world, and no callbacks; under a parallel rule it only adds resumable rules of the tree to the note |
| Isolation.RunAgree | lib/translator/translator.cpp:125-148 | two games that agree on a rule's own states and own events are not told apart by its run |
| Coroutine.Suspend | lib/translator/translator.cpp:747-755 | running a rule under a parallel rule until it yields, and then the noted rules in reverse, alone, is running the rule alone: same states, same events, same work |
| Interleaving.TurnKeepsMeaning | lib/translator/translator.cpp:747-754 | a turn does a part of what the branch's stack does alone, and leaves on the stack exactly the rest of it, in any state of the other branches |
| Interleaving.TurnUnseen | lib/translator/translator.cpp:805-828 | a turn changes nothing of what a branch with other rules or in another world can see |
| Interleaving.AloneClean | lib/translator/translator.cpp:147 | a branch that has ended has deleted every rule state of its tree |
| Interleaving.OneLeafPerTurn | lib/translator/translator.cpp:139-145 | a turn executes at most one leaf rule |
| ParallelRules.TurnStep | lib/translator/translator.cpp:747-754 | the loop invariant of a branch over one turn: its stack leads, run alone, to the same goal |
| ParallelRules.TurnStage | lib/translator/translator.cpp:770-776 | after a turn the parallel rule's own record and callback are as before and only its branches' states have changed |
| ParallelRules.Closed | lib/translator/translator.cpp:766-767 | when no branch is left, every branch has come to its goal and rule states come and go in pairs |
| ParallelRules.NothingLeft | lib/translator/translator.cpp:766-767 | of branches not in the middle of a run nothing is left among the rule states |
| ParallelRules.SomeBranches | lib/translator/translator.cpp:735-742 | in numbers: branches below 0x1_0000 come to where they come alone, and those from there on do nothing |
| Sequential.AloneIsSequence | lib/translator/translator.cpp:125-148 | a rule run alone does exactly what the plain recursion over its tree does, and leaves rule states and callbacks as they were: the saved iterators implement the recursion |
| Sequential.BranchIsSequence | lib/translator/translator.cpp:727-836 | when a parallel rule returns, the events of each branch are those of the plain recursion over its tree, in that order and each once |
| Schedule.FairTurns | lib/translator/translator.cpp:745-761 | round-robin: in any number of passes, between two turns of a branch in a row every other branch that is not finished at that point has exactly one turn, and no finished branch has any |
| Schedule.PassVisits | lib/translator/translator.cpp:745-761 | the jth pass visits exactly the branches that take more than j turns, in the order of the table |
| Schedule.LeafPerTurn | lib/translator/translator.cpp:139-145 | in the run of a parallel rule no turn executes more than one leaf rule |
| Schedule.AllPublished | lib/translator/translator.cpp:803-812 | when a parallel for is over: of every event of its branches the element published last before it is the one of the event's world, nothing else was published, and every element that has a place was |
| Schedule.PassesEnd | lib/translator/translator.cpp:745-765 | if every branch ends alone, the table is empty after some number of passes |
| Schedule.OwnTurnsOnly | lib/translator/translator.cpp:745-761 | whether or not branches end: after any list of turns a branch has on its stack, sees and has spent what it would after its own turns alone, with no other branch having any |
| Schedule.AfterPasses | lib/translator/translator.cpp:727-761 | after any number of passes of a parallel rule, whether or not it ends: each branch that would end alone has had a beginning of what it does alone, and each branch is where its own turns alone would have brought it |
| Rounds.EntryErased | lib/translator/translator.cpp:755-760 | erasing an entry from the table while walking it leaves those before and behind it where they are: none is skipped and none visited twice |
| Timers.CheckTimers | lib/translator/translator.cpp:566-571 | asking several timers: a timer that rings is late, and none asked after it |
| Timers.TimedRun | lib/translator/translator.cpp:551-571 | a rule under any nest of timers obeys them all, restores the callbacks and deletes every state of its tree, whether stopped or not |
| Timers.TimerKeepsTime | lib/translator/translator.cpp:566-571 | whenever a timer is asked it answers that it has expired exactly if the clock, read then, is its duration or more past what it was when the timer was started |
| Timers.ExpiredTimerStops | lib/translator/translator.cpp:551-571 | once a timer was found expired nothing starts before its rule returns |
| Timers.TimedLeavesNothing | lib/translator/translator.cpp:139-144 | callbacks and rule states after a timed rule are those on entry |
| Timers.RestStillRuns | lib/translator/translator.cpp:551-564 | after any of its rules, a timer that expired included, a list goes on with the next; it is stopped exactly if a timer around it has expired by then |
| Timers.StoppedAlone | lib/translator/translator.cpp:551-571 | an example: alone, the timer keeps the third leaf from starting |
| Timers.TimerLostInBranch | lib/translator/translator.cpp:558-563 | the same timer in a branch is gone when the branch is suspended, and the third leaf starts |
| BranchTimers.RunBoth | lib/translator/translator.cpp:566-571 | a turn of any rule under a timer and the same turn without it: the same rules unwind, each has asked the timer once, and those for which it rang are not noted to be resumed |
| BranchTimers.TimerTurn | lib/translator/translator.cpp:551-571 | for every timer in a branch: its one turn ends exactly if its body's does; afterwards callback and deadline are gone, what is noted is of the body, and the number of rules not noted is the number of rings |
| BranchTimers.StopsIffLate | lib/translator/translator.cpp:551-571 | what is left of the branch differs from what the body alone would leave exactly if the clock is past the deadline when one of the rules that unwind asks |
| BranchTimers.NotLateNotThere | lib/translator/translator.cpp:551-571 | otherwise the turn and then the noted rules do what the body does alone, if what it reads does not depend on the timer's answers, which are left out of the comparison; however late the timer gets after the turn |
| BranchTimers.NeverAskedAgain | lib/translator/translator.cpp:558-563 | no later turn of a rule the turn noted asks the timer |
| StateKeys.KeyInjective | lib/translator/include/translator.h:214-217 | below 2^48, keys are equal exactly for the same rule and world |
| StateKeys.KeyCollides | lib/translator/include/translator.h:214-217 | the bound is exact: a rule has a double in some world if and only if it lies at or above 2^48 |
| ReplaceWalk.DropPriorIs | lib/antlr/antlr4-runtime/TokenStreamRewriter.cpp:341-364 | on disjoint earlier replaces, the loop that merges as it goes drops exactly those that meet the original range and fails exactly if one of them blocks it |
| ReplaceWalk.WalkMeans | lib/antlr/antlr4-runtime/TokenStreamRewriter.cpp:317-365 | the replace walk fails exactly when the program has no meaning and else leaves a program of disjoint replaces that stands for the document meant |
| InsertWalk.InsertWalkIs | lib/antlr/antlr4-runtime/TokenStreamRewriter.cpp:367-399 | the insert walk fails exactly if an insertion follows a replacement that covers it past its start; else texts at an index are joined and handed to a replacement there |
| InsertWalk.ReduceMeans | lib/antlr/antlr4-runtime/TokenStreamRewriter.cpp:313-413 | reducing a program gives exactly the operations of the document it means, or the error the meaning predicts, for all programs |
| EditText.SurvivorsCover | lib/antlr/antlr4-runtime/TokenStreamRewriter.cpp:340-364 | the surviving replaces are pairwise disjoint and cover exactly the union of the ranges asked for |
| EditText.Coverage | lib/antlr/antlr4-runtime/TokenStreamRewriter.cpp:343-358 | a token is in a region of the document exactly if some replacement asked for it |
| EditText.WalkIsCells | lib/antlr/antlr4-runtime/TokenStreamRewriter.cpp:280-296 | the walk that jumps over ranges emits what the document says of each token on its own; from any start, regions begun before it do not count |
| EditText.LeftOver | lib/antlr/antlr4-runtime/TokenStreamRewriter.cpp:283-284 | the operations not erased are those before the start, past the end, or inside a region |
| EditText.WholeWalk | lib/antlr/antlr4-runtime/TokenStreamRewriter.cpp:280-296 | the tokens emitted are exactly those outside every range asked for, once and in order |
| EditText.WholeLeft | lib/antlr/antlr4-runtime/TokenStreamRewriter.cpp:301-309 | what trails the text is insertions past the end, and one before the last token if a deletion grew over it |
| DocTexts.CellsSpell | lib/antlr/antlr4-runtime/TokenStreamRewriter.cpp:54-60 | the text emitted for a document, token by token: a region's text where it starts and nothing for its other tokens; for any other token what is inserted before it and then the token's own text, of which the end of file has none |
| DocTexts.WalkSpells | lib/antlr/antlr4-runtime/TokenStreamRewriter.cpp:280-296 | the same for the walk of any program that reduces, from any token |
| DocTexts.NoEdits | lib/antlr/antlr4-runtime/BufferedTokenStream.cpp:378-385 | without edits it is the texts of the tokens, up to the end of file |
| DocTexts.DeletesText | lib/antlr/antlr4-runtime/TokenStreamRewriter.cpp:70-74 | deletions alone never fail and leave the texts of exactly the tokens that none of them asked for, in order |
| EditPrograms.InsertsRead | lib/antlr/antlr4-runtime/TokenStreamRewriter.cpp:259-311 | programs of insertions always reduce; at each index the texts come latest first, before the token's own |
| EditPrograms.OneOpPerIndex | lib/antlr/antlr4-runtime/TokenStreamRewriter.cpp:401-410 | if deletions nest, the throw for two operations at an index is unreachable and start indexes are distinct |
| EditPrograms.TwoOpsHappens | lib/antlr/antlr4-runtime/TokenStreamRewriter.cpp:406-408 | a program of three edits that reaches that throw |
| EditReading.SecondReading | lib/antlr/antlr4-runtime/TokenStreamRewriter.cpp:259-278 | for all programs: a second reading in a row gives the operations of the first, less the insertions that a deletion has grown over, and leaves a program that reading changes no more |
| EditReading.ReduceAgain | lib/antlr/antlr4-runtime/TokenStreamRewriter.cpp:259-278 | reading again gives the same operations, and leaves the program as it was, exactly if no insertion is stale; where deletions nest none is |
| EditReading.ReadingObserves | lib/antlr/antlr4-runtime/TokenStreamRewriter.cpp:259-278 | every list of later edits reduces to the same with and without a reading before it, exactly if each insertion at a replaced token has no text and stands before a region that no deletion can make grow |
| EditReading.ReadingObservesText | lib/antlr/antlr4-runtime/TokenStreamRewriter.cpp:259-278 | for insertions with text: exactly if no insertion that still stands is at a token that a replacement asked for |
| EditReading.ReadingMatters | lib/antlr/antlr4-runtime/TokenStreamRewriter.cpp:259-278 | an input where an edit after a reading gives another result than without the reading |
| ReadTwice.TextsAgain | lib/antlr/antlr4-runtime/TokenStreamRewriter.cpp:247-311 | for any interval: the second of two readings in a row can give the texts that the first can give exactly if no stale insertion with text shows in the first, that is, stands where the walk comes to it or trails; otherwise it can give none of them |
| ReadTwice.WholeShows | lib/antlr/antlr4-runtime/TokenStreamRewriter.cpp:247-249 | when a whole stream is read, the stale insertions that show are those with text at the end of the stream or past it |
| ReadTwice.GoneTheSecondTime | lib/antlr/antlr4-runtime/TokenStreamRewriter.cpp:247-311 | an input where the first reading gives a text and the second gives none |
| Rewriter.TokenStreamRewriter.InsertBefore | lib/antlr/antlr4-runtime/TokenStreamRewriter.cpp:155-160 | one insertion is appended to the program |
| Rewriter.TokenStreamRewriter.InsertAfter | lib/antlr/antlr4-runtime/TokenStreamRewriter.cpp:138-141 | it is an insertion before the next token, even past the end; after the largest index it wraps to the first token |
| Rewriter.TokenStreamRewriter.ReplaceRange | lib/antlr/antlr4-runtime/TokenStreamRewriter.cpp:178-187 | an invalid range is refused and changes nothing; a valid one is appended |
| Rewriter.TokenStreamRewriter.Delete | lib/antlr/antlr4-runtime/TokenStreamRewriter.cpp:209-212 | it is a replacement by no text |
| Rewriter.TokenStreamRewriter.ReduceToSingleOperationPerIndex | lib/antlr/antlr4-runtime/TokenStreamRewriter.cpp:313-413 | the loops over the vector, which null and edit entries in place, compute Reduce and leave the reduced program |
| Rewriter.TokenStreamRewriter.WipePriorInserts | lib/antlr/antlr4-runtime/TokenStreamRewriter.cpp:324-339 | earlier insertions in the range are gone, and the replacement has the text of those at its start |
| Rewriter.TokenStreamRewriter.DropPriorReplaces | lib/antlr/antlr4-runtime/TokenStreamRewriter.cpp:340-364 | earlier replaces are dropped, merged or found to overlap, against the range as it has grown so far |
| Rewriter.TokenStreamRewriter.CombinePriorInserts | lib/antlr/antlr4-runtime/TokenStreamRewriter.cpp:375-385 | earlier insertions at the index are gone and their texts follow the insertion's own |
| Rewriter.TokenStreamRewriter.AttachToPriorReplaces | lib/antlr/antlr4-runtime/TokenStreamRewriter.cpp:386-398 | a replacement that starts at the insertion takes its text over; one that covers it otherwise is an error |
| Rewriter.TokenStreamRewriter.ExecuteAll | lib/antlr/antlr4-runtime/TokenStreamRewriter.cpp:280-296 | the text of the walk, with exactly the operations come to erased from the map |
| Rewriter.TokenStreamRewriter.BufferText | lib/antlr/antlr4-runtime/BufferedTokenStream.cpp:365-386 | the texts of the tokens of a range of the buffer, up to the end-of-file token; none for an invalid index |
| Rewriter.TokenStreamRewriter.GetText | lib/antlr/antlr4-runtime/TokenStreamRewriter.cpp:259-311 | the text of any interval: what the document without the regions begun before says of each token and, only at the end of the stream, what trails, in any order; without edits the texts of the tokens; the program is left reduced |
| Rewriter.TokenStreamRewriter.GetWholeText | lib/antlr/antlr4-runtime/TokenStreamRewriter.cpp:247-249 | the whole text is the document's, token by token; for insertions within the stream it is their direct reading, for deletions alone the texts of the tokens that none asked for, and without edits those of all tokens before the end of file |
| Tokens.TokenSource.NextToken | lib/antlr/antlr4-runtime/UnbufferedTokenStream.cpp:127-138 | tokens come in order; every caller is proved not to ask after the end of file |
| UnbufferedStream.UnbufferedTokenStream.Add | lib/antlr/antlr4-runtime/UnbufferedTokenStream.cpp:140-148 | one token more, the next of the source with its absolute position as its index: the window stays a slice of the source |
| UnbufferedStream.UnbufferedTokenStream.Fill | lib/antlr/antlr4-runtime/UnbufferedTokenStream.cpp:127-148 | n more tokens, or those left, each with its absolute position; the window stays a slice of the source |
| UnbufferedStream.UnbufferedTokenStream.LT | lib/antlr/antlr4-runtime/UnbufferedTokenStream.cpp:42-60 | LT(i) for i > 0 is the source's token i - 1 ahead, clamped to end of file; LT(-1) the one consumed last; what lies behind otherwise, exactly |
| UnbufferedStream.UnbufferedTokenStream.Consume | lib/antlr/antlr4-runtime/UnbufferedTokenStream.cpp:87-107 | it fails exactly on the end of file and else moves one on; in a marked range nothing leaves the window |
| UnbufferedStream.UnbufferedTokenStream.Mark | lib/antlr/antlr4-runtime/UnbufferedTokenStream.cpp:157-166 | the nth mark is -n and nothing moves |
| UnbufferedStream.UnbufferedTokenStream.Release | lib/antlr/antlr4-runtime/UnbufferedTokenStream.cpp:168-186 | only the latest mark can be released; the last release drops exactly the consumed part of the window |
| UnbufferedStream.UnbufferedTokenStream.Seek | lib/antlr/antlr4-runtime/UnbufferedTokenStream.cpp:193-222 | it fails exactly before the window; where it lands otherwise, exactly; LT(-1) is right there |
| UnbufferedStream.UnbufferedTokenStream.RunMarked | lib/antlr/antlr4-runtime/UnbufferedTokenStream.cpp:157-222 | mark, any nest of lookaheads, consumes, seeks and marks, those released in place included, seek back, release: position and LT(-1) are as before, hence every LT(i) |
| ChannelStream.CommonTokenStream.Fetch | lib/antlr/antlr4-runtime/BufferedTokenStream.cpp:89-112 | n more tokens or those left; the buffer stays a prefix of the source |
| ChannelStream.CommonTokenStream.Sync | lib/antlr/antlr4-runtime/BufferedTokenStream.cpp:76-87 | the position is in the buffer if the source has it, and the answer says so; the position -1 wraps and counts as there |
| ChannelStream.CommonTokenStream.NextTokenOnChannel | lib/antlr/antlr4-runtime/BufferedTokenStream.cpp:243-259 | the first position from i on whose token has the channel, or the end of file: no token between has it, however much is buffered |
| ChannelStream.CommonTokenStream.PreviousTokenOnChannel | lib/antlr/antlr4-runtime/BufferedTokenStream.cpp:261-279 | the last position up to i whose token has the channel or is the end of file, or -1: no token behind it has, however much is buffered; past the source, its end; the position -1 wraps and gives the end of the buffer |
| ChannelStream.CommonTokenStream.LazyInit | lib/antlr/antlr4-runtime/BufferedTokenStream.cpp:180-190 | setting up late does not change the position seen |
| ChannelStream.CommonTokenStream.Seek | lib/antlr/antlr4-runtime/BufferedTokenStream.cpp:42-45 | the position is the first from the index whose token has the channel, or the end of file |
| ChannelStream.CommonTokenStream.LT | lib/antlr/antlr4-runtime/CommonTokenStream.cpp:43-63 | LT(k) is a token of the channel with exactly k - 1 of the channel between the position and it, or the end of file if there are fewer, whatever is buffered |
| ChannelStream.CommonTokenStream.LB | lib/antlr/antlr4-runtime/CommonTokenStream.cpp:23-41 | LB(k) is a token of the channel with exactly k of the channel from it to the position, if there are k; with one too few, null exactly if the first token is off the channel; with more, the position on the round of the walk |
| ChannelStream.RoundNext | lib/antlr/antlr4-runtime/CommonTokenStream.cpp:31-35 | the walk back goes round the on-channel tokens up to the end of the buffer, by way of -1 and the whole source if the first token is off the channel |
| ChannelStream.CommonTokenStream.Consume | lib/antlr/antlr4-runtime/BufferedTokenStream.cpp:51-74 | it fails exactly on the end of file; else the position moves to the next token of the channel, or the end of file, and the one left is the first behind |
| ChannelStream.CommonTokenStream.ConsumeSeen | lib/antlr/antlr4-runtime/BufferedTokenStream.cpp:51-74 | what LT(1) gave is what LT(-1) gives after consuming |
| ChannelStream.CommonTokenStream.Fill | lib/antlr/antlr4-runtime/BufferedTokenStream.cpp:400-409 | the whole source is buffered and the position seen is unchanged |
| ChannelStream.NextIsFirst | lib/antlr/antlr4-runtime/BufferedTokenStream.cpp:243-259 | the scan ahead skips no token of the channel |
| ChannelStream.PrevIsLast | lib/antlr/antlr4-runtime/BufferedTokenStream.cpp:261-279 | the scan back skips no token of the channel |
| LexerCache.ClosureSame | lib/antlr/antlr4-runtime/atn/LexerATNSimulator.cpp:316-372 | a closure that meets no predicate is the same for all recognizers and positions |
| LexerCache.ReachSame | lib/antlr/antlr4-runtime/atn/LexerATNSimulator.cpp:239-277 | so is a reach set at one offset, and at all where no rule consumes anything after an action that depends on the position |
| LexerCache.StartsSame | lib/antlr/antlr4-runtime/atn/LexerATNSimulator.cpp:304-314 | so is a start state |
| LexerTails.ReachWaits | lib/antlr/antlr4-runtime/atn/LexerActionExecutor.cpp:36-53 | there, a configuration that still waits for an offset consumes nothing more, and so never has one fixed |
| LexerErased.AllPlain | lib/antlr/antlr4-runtime/atn/LexerATNSimulator.cpp:239-277 | in every network a reach set without its offsets is the one that a network whose actions take no offset reaches from the set without offsets, though that set may be shorter: what is in a set twice, but for offsets, adds nothing the second time |
| LexerErased.MatchPlain | lib/antlr/antlr4-runtime/atn/LexerATNSimulator.cpp:71-88 | in every network, whatever earlier matches have stored, a match gives the type, the place and the actions, offsets apart, that it gives with nothing stored, or the same error; what it leaves stored has that property too |
| LexerEdges.EdgeExact | lib/antlr/antlr4-runtime/atn/LexerATNSimulator.cpp:259-262 | exactly when an edge is right everywhere, for a step at an offset that the set does not have yet, as all are with nothing stored: if the set reached does not have it either, it is reached at every offset, and else another one is at any other |
| LexerEdges.NextRight | lib/antlr/antlr4-runtime/atn/LexerATNSimulator.cpp:152-155 | with right edges a step is the step computed, and it leaves all edges right exactly if it stores none to a set with its own offset |
| LexerEdges.MatchRight | lib/antlr/antlr4-runtime/atn/LexerATNSimulator.cpp:71-181 | a match with right edges leaves right edges exactly if it is free at every step with nothing stored, and then it is the match with nothing stored, offsets included |
| LexerEdges.TailsMatchFree | lib/antlr/antlr4-runtime/atn/LexerActionExecutor.cpp:36-53 | every match is, where no rule consumes anything after an action that depends on the position |
| LexerEdges.MatchSame | lib/antlr/antlr4-runtime/atn/LexerATNSimulator.cpp:71-88 | there, a match with whatever earlier matches have stored is the match with nothing stored, and what it leaves stored is right |
| LexerSimulator.LexerATNSimulator.ComputeClosure | lib/antlr/antlr4-runtime/atn/LexerATNSimulator.cpp:316-372 | the recursion that adds to the set in place computes the closure function |
| LexerSimulator.LexerATNSimulator.GetReachableConfigSet | lib/antlr/antlr4-runtime/atn/LexerATNSimulator.cpp:239-277 | the loops, with their skipped alternatives and early exits, compute the reach function |
| LexerSimulator.LexerATNSimulator.GetExistingTargetState | lib/antlr/antlr4-runtime/atn/LexerATNSimulator.cpp:183-199 | the edge stored for the symbol in the mode's table, if the symbol is in its range and there is one |
| LexerSimulator.LexerATNSimulator.ComputeTargetState | lib/antlr/antlr4-runtime/atn/LexerATNSimulator.cpp:201-222 | the target is the reach set, ERROR if it is empty; it is stored, ERROR included, exactly if no predicate was met, and its state unless it is ERROR |
| LexerSimulator.LexerATNSimulator.AddDFAEdge | lib/antlr/antlr4-runtime/atn/LexerATNSimulator.cpp:502-536 | for a symbol in range the edge is stored and all others are as they were; for any other symbol nothing changes |
| LexerSimulator.LexerATNSimulator.ExecATN | lib/antlr/antlr4-runtime/atn/LexerATNSimulator.cpp:124-181 | for any network and any cache, the loop computes the cached run and leaves the edges that it leaves |
| LexerSimulator.LexerATNSimulator.FailOrAcceptToken | lib/antlr/antlr4-runtime/atn/LexerATNSimulator.cpp:224-237 | the last accept is restored; with none, end of file exactly if nothing was left at the start |
| LexerSimulator.LexerATNSimulator.MatchToken | lib/antlr/antlr4-runtime/atn/LexerATNSimulator.cpp:71-88 | for any network the match is the cached match, tables included; after any earlier matches in any modes, predicates included, it gives what it gives with an empty cache and what the law of `LexerTrails.Lexes` says: offsets apart always, and with them as long as all matches are free, which is exactly as long as the tables are right |
| LexerRun.ExecDecides | lib/antlr/antlr4-runtime/atn/LexerATNSimulator.cpp:134-178 | the loop decides for the longest run that accepts, and else for the mark it had |
| LexerRun.MatchMunches | lib/antlr/antlr4-runtime/atn/LexerATNSimulator.cpp:71-181 | a match is the longest token any rule accepts; without one, end of file exactly at the end of the input |
| LexerSets.ClosureSound | lib/antlr/antlr4-runtime/atn/LexerATNSimulator.cpp:316-372 | everything a closure adds waits for a character or stands at the end of a token's rule, and has a path of epsilon steps from where the closure starts |
| LexerSets.ClosureComplete | lib/antlr/antlr4-runtime/atn/LexerATNSimulator.cpp:316-372 | a closure misses nothing of that kind, except behind non-greedy decisions |
| LexerLanguage.NextHolds | lib/antlr/antlr4-runtime/atn/LexerATNSimulator.cpp:239-277 | a reach set holds what is derived with one character more, all of it that passed no non-greedy decision, in the order of the rules |
| LexerLanguage.ExecLongest | lib/antlr/antlr4-runtime/atn/LexerATNSimulator.cpp:134-178 | no derivation to the end of a rule is longer than the token decided for |
| LexerLanguage.FirstStopFirst | lib/antlr/antlr4-runtime/atn/LexerATNSimulator.cpp:545-557 | the first configuration at a rule's end belongs to the first rule that derives the text |
| LexerTrails.DerivesIff | lib/antlr/antlr4-runtime/atn/LexerATNSimulator.cpp:374-500 | said of the network alone: a configuration is derived exactly if a trail from state to state leads there, along calls that push the state that follows, predicates that answer yes, actions in order and characters read; it is flagged exactly if the trail has entered a non-greedy decision |
| LexerTrails.LexesLanguage | lib/antlr/antlr4-runtime/atn/LexerATNSimulator.cpp:71-237 | every token is that of a trail to the end of a rule, with the rule's type and the actions met, of the first rule listed that has one over the text; if any trail to the end of a rule enters no non-greedy decision, a token is given, and it is no shorter; a failure is where no such trail reads on |
| LexerTrails.PlaceIs | lib/antlr/antlr4-runtime/atn/LexerATNSimulator.cpp:605-614 | where k characters lead, or those left: the index, the line by the newlines read, the column counted from the last of them |
| LexerGreed.AllAtGood | lib/antlr/antlr4-runtime/atn/LexerATNSimulator.cpp:239-277 | in every reach set, behind the end of an alternative's rule come only ends of rules and configurations that have passed no non-greedy decision, for that alternative |
| LexerGreed.NoLonger | lib/antlr/antlr4-runtime/atn/LexerATNSimulator.cpp:243-248 | once an alternative has come to the end of its rule in a reach set, no later configuration of it whose trail has entered a non-greedy decision contributes to the set |
| LexerGreed.EndsThere | lib/antlr/antlr4-runtime/atn/LexerATNSimulator.cpp:239-277 | a rule that cannot do without a non-greedy decision ends where its first-listed branch first ends: no set behind that place has it |
| LexerGreed.MatchEndsThere | lib/antlr/antlr4-runtime/atn/LexerATNSimulator.cpp:71-237 | so the token of a match is no longer than that, or it is another rule's |
| LexerOffsets.StoredOffset | lib/antlr/antlr4-runtime/atn/LexerATNSimulator.cpp:259-262 | a lexer in which the same set and character reach different sets at different offsets |
| LexerOffsets.LaterMatch | lib/antlr/antlr4-runtime/atn/LexerATNSimulator.cpp:152-155 | after any match of m times a and b in it, any match of n times a and b gives its action the offset m; with nothing stored it gives n |
| BooleanParser.ExpressionSound | lib/antlr/generated/SimpleBooleanParser.cpp:263-394 | what is parsed has the consumed tokens as its yield and obeys the precedence shape, and stops only where no operator of the precedence follows |
| BooleanParser.Climb | lib/antlr/generated/SimpleBooleanParser.cpp:343-386 | any tree of the shape that stands in the input becomes the left operand of the loop |
| BooleanParser.Whole | lib/antlr/generated/SimpleBooleanParser.cpp:263-394 | such a tree is the expression parsed where no operator the precedence admits follows |
| BooleanParser.ParseIff | lib/antlr/generated/SimpleBooleanParser.cpp:65-87 | parsing gives a tree exactly if the tree has the shape and the tokens are its yield |
| BooleanParser.Unambiguous | lib/antlr/generated/SimpleBooleanParser.cpp:263-394 | no two trees of the shape have the same tokens |
| BooleanParser.RejectsIff | lib/antlr/generated/SimpleBooleanParser.cpp:336-337 | the parser fails exactly on tokens that no tree of the shape has |
| BooleanParser.ErrorPlace | lib/antlr/generated/SimpleBooleanParser.cpp:263-394 | where it fails: the tokens before that place begin an expression, and with the token there, or the end of the input, they begin none |
| BooleanParser.ErrorKind | lib/antlr/generated/SimpleBooleanParser.cpp:336-337 | which error: an operand is missing exactly at the start and after a token that completes no expression; else a token does not match |
| BooleanParser.SimpleBooleanParser.ParseExpression | lib/antlr/generated/SimpleBooleanParser.cpp:263-394 | the recursion with its loop computes the expression function and moves to where it stops |
| BooleanParser.SimpleBooleanParser.ParseAll | lib/antlr/generated/SimpleBooleanParser.cpp:65-87 | the result is the one tree of the shape over all tokens before the end of file, if there is one; else the error is of that kind and at that place |
| QueryTokens.TokenScanned | lib/translator/include/variables.h:72-93 | a well-formed token is scanned to its end, dots in its brackets included |
| QueryTokens.ScannedName | lib/translator/include/variables.h:72-93 | what is scanned is well formed and ends at a dot or at the end |
| QueryTokens.TokenizeIff | lib/translator/include/variables.h:61-97 | tokenizing gives a list exactly if its tokens are well formed and the query is their dot-join, up to one dot at the end |
| QueryTokens.TokenizeFails | lib/translator/include/variables.h:61-97 | tokenizing fails exactly on well-formed tokens, each with its dot, followed by a dot, by an open call, or by a call with something else than a dot behind it; the three errors tell which |
| QueryTokens.QueryTokensIterator.ProduceToken | lib/translator/include/variables.h:61-69 | an empty token is an error and moves nothing; else the text up to the separator, which is passed |
| QueryTokens.QueryTokensIterator.GetNext | lib/translator/include/variables.h:71-95 | the next token is the first token of what is left, and the rest follows its separator; the three errors exactly |
| QueryTokens.QueryTokensIterator.HasNext | lib/translator/include/variables.h:97 | there is a next token exactly if something is left |
| QueryTokens.QueryTokensIterator.GetAll | lib/translator/include/variables.h:71-97 | taking tokens to the end gives a list whose join, up to one dot, is what was left, or the error that tells why there is none |

## Left out

Scheduler:

- Scheduler.GameState.RunRule: asks, as the methods beside it, that the call comes to an end within the given gas and meets no missing rule state; for any gas, Run says when that is.
- Scheduler.GameState.RunInParallel: asks that every branch would come to an end when run alone, that branches share no rules, and that what a branch reads depends on its own doings; the iteration order of the hash table is a parameter.
- Scheduler.GameState.RunParallelFor: the same, and the size of the list is a parameter.
- Parallel rules inside branches of parallel rules: an inner one runs to its end within one turn of its branch, and is not modelled. The record of a `ParallelForRule` inside another world would be filed under one key and looked up under another (`lib/translator/translator.cpp:840`).
- Timers around a parallel rule: while it runs, its own callback is asked first and answers, so that they are not asked at all (`lib/translator/include/translator.h:204-213`); the model has this too (`ticks` is as on entry), and no theorem on timers goes past it.
- Timers inside branches are excluded from the theorems on whole parallel rules; `BranchTimers` says what one does to its branch, for timers whose body holds no further timer.
- Scheduler.GameState.RunForEach: the number of elements is fixed when the rule is first called; a list that changes while it is walked (the source keeps an iterator into it) is not covered.
- Scheduler.GameState.RunInput: how often the answer is polled for in vain is a parameter; the timeout, the choice and what is stored are not modelled.
- Sub-rules of a `ParallelForRule` after the first: the source does not run them (`lib/translator/translator.cpp:795-796`).
- The variable tree: conditions, list lengths and cases are answers that depend on what the rules have done; the branch theorems ask that a branch's answers depend on its own doings only. In particular the element variable that the branches of a `ParallelForRule` share is not modelled.
- The work of leaf rules, sending and receiving.
- `ExactTimer`, `TrackTimer`, `PauseRule`, `SetupRule`, and the null rule state that `check` would follow: a run that meets one is `Stuck`.

Token rewriter:

- Rewriter.TokenStreamRewriter.GetText: does not say what is left of the program after an error, because the source stops in the middle of a walk.
- Several named programs, `rollback`, `deleteProgram` and the overloads that take tokens.
- The texts of exceptions; building them may itself throw another exception (`lib/antlr/antlr4-runtime/TokenStreamRewriter.cpp:40-45` asks for the token at an invalid index).
- Streams without an end-of-file token, and operations used after they are deleted.

Token streams:

- UnbufferedStream.UnbufferedTokenStream.Seek: asks that the start of the window is not sought below the outermost mark, where the source does not know LT(-1); the stream contract promises nothing there.
- UnbufferedStream.UnbufferedTokenStream.Release: asks that 0 is not passed when no mark is open, which would make the number of marks negative.
- The unfiltered `BufferedTokenStream`, hidden tokens, ranges of tokens and their text: easier than what is here.

Lexer:

- LexerSimulator.LexerATNSimulator.MatchToken: promises the offsets of the uncached result only as long as every match so far was free (`LexerEdges.MatchFree`), because the code does not give more; type, place and actions are promised always.
- LexerTrails.LexesLanguage: asks that a state has at most one transition that consumes characters, as the grammar compiler builds them; behind non-greedy decisions, whose purpose is to lose to shorter matches, it promises soundness only, and `LexerGreed` says where such rules end.
- Contexts with several parents: contexts are linear stacks here, which is what closures of a lexer build; so no contexts are merged.
- Predicates that change state, and the exception when a predicate is met after the end of file.
- Precedence transitions (the source refuses them), locks, state numbers, the hash lookup of states, and the execution of actions: a token carries the actions to be executed.

Parsers:

- `adaptivePredict` is replaced by one token of lookahead and the precedence tests; error recovery, listeners and parent links are not modelled: the first error is the result.
- The evaluation of the tokens of a query.

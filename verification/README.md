# A verified model of the resident generation engine

This project models the engine that keeps one conversation resident on the device: speculative
(MTP) decoding on top of recurrent state, attention rows and a draft cache that survive from one
turn to the next. Around it stand the exact sampler, the one-row decode attention, the
incremental text decoder, the two event streams and the one-generation supervisor.

The target network is uninterpreted: a Gated DeltaNet step, an attention row and an output row
are arbitrary functions of the text so far. A forward of several ids is the fold of the forwards
of each. Everything below holds for every such network and every drafter.

| file | what it models |
|---|---|
| `Options`, `Target` | the network as a function of the text |
| `GdnWindow`, `Runner`, `Restart` | the stash that cuts a short window, snapshots, pages, the chunk-kernel restart and when it loses something |
| `Mtp`, `Schedule`, `SuffixIndex`, `Draft`, `Cycle` | acceptance, prefill cuts, copied drafts, the draft cache and its repair |
| `Decode`, `Account` | what a turn must say, as a function of the text alone; a turn as a trace of windows |
| `Caches`, `Driven` | the two caches of a turn as one value, and what each forward and each trace makes of it |
| `Turns`, `Continue` | one window, one prefill, the window loop: methods that make of the caches what those functions say |
| `Marks`, `Resident`, `Generation` | prefix marks; what is resident as a value, rewinding it, and what a whole call makes of it |
| `Cancels` | where a cancel ends a turn, by the look that sees it |
| `Session`, `Conversation` | the session (rewind, generate, prefill, turn, commit, cancel), and any sequence of calls |
| `Answers`, `Counterexamples` | exactly when an answer is the cold one, and the sequences of calls that go wrong |
| `Sampling`, `Speculate`, `Sampler`, `Redrawn`, `FloorLaw`, `WindowLaw` | the sampling law, and what a window emits |
| `Chance`, `SampledSession` | a sampled turn on the resident caches |
| `Softmax` | split-K decode attention and the bottom-right merge |
| `Utf8`, `Incremental`, `Acceptor` | text streaming and the reasoning-close callback |
| `ResponsesStream`, `OrderedOutput`, `AnthropicStream` | the two event streams |
| `Supervisor`, `CancelSlot` | single owner, durable rows, both ends of a cancel |

The methods of `Turns`, `Continue` and `Session` keep the source's objects: a runner with its stash
and pages, a draft cycle with its block, a mark table with its reused buffers, a session with its
tape, commit and spare block. Each is proved to make of one value, `Resident.State` or the `Core` of
both caches, exactly what a function of `Caches`, `Driven`, `Resident` or `Generation` says. What the
source promises is then proved of those functions, for all states, prompts, callbacks, drafters and
cancels. `Decode.Turn` and `Decode.Greedy` are the reference: they mention no cache.

The chain of main results: `Continue.ContinueDrafted` makes a trace that the caches really score, with
drafts copied from the text or rolled by the block; `Driven.DroveScored` says when those scores are the
exact text's; `Account.RunIsTurn` and `Account.RunIsGreedy` that such a trace is the reference;
`Cancels.AbortsExactly` that a cancel cuts it at the first look that sees it, and nowhere else;
`Generation.GeneratedIsTrue`, `GeneratedIsHonest`, `AbandonedIsHonest` and `GeneratedWarm` that a call
keeps what the next one needs; and `Conversation.Converse` that any sequence of calls, refused and cancelled
ones included, answers as cold sessions do. `SampledSession.ResidentSamples` says the same of a turn
that samples: its answer has the law of sampling from the exact text.

## What was found

Where the code does not keep what its documentation says, the model follows the code, and the
exact condition is proved.

- A chunk of 48 or more ids is given no initial recurrent state until the layer is ready, and only
  such a chunk makes it ready (`engine/forward/projections.py:250-252`). A prefill keeps what it
  resumes, for every network and text, if and only if the layer is ready, no span is that long, or
  the first span starts at 0 and is (`Restart.CarriedIs`, `Restart.CarriedIsExact`). A whole turn does
  if and only if its prefill does and no injection is that long before the layer is ready, which is
  asked after the prefill (`Driven.Safe`, `Driven.DroveIsExact`, `Generation.GeneratedIsExact`).
  The answer of a turn with a silent callback is the plain greedy continuation whenever the prefill
  carries from where the call opens (`Answers.AnswerIsGreedy`), and on a network that tells only then
  (`Answers.AnswerIsExact`); `Answers.Resumes` is known before the turn begins. `Counterexamples.LosesPast`
  makes the calls on a new session: a prompt of 2 to 48 ids, then one that extends it by more than 48.
  The second completes with a token that is not the cold one, and leaves a state that has forgotten the
  first; `Counterexamples.RestartDiffers` asks a new session beside it. A callback that speaks changes
  nothing in that, if it injects mildly and does not take the first token back (`Answers.TurnIsExact`).
  A call is served right wherever it is fit (`Conversation.Fit`). A session whose prompts are longer than
  48 ids, with no lower cut, never meets the restart, and neither does one that never takes the chunk
  kernel (`Conversation.Covered`).
- `cancel` does not prune marks above the commit and `_on_span` keeps an entry that is already
  there, so a mark can outlive its tokens (`engine/forward/session.py:97`, `330-353`).
  `Counterexamples.ResumesStale` makes the calls: an abandoned prompt leaves its mark, a second prompt
  reaches the same cut, and a third, which parts from the second there, is resumed on the state of the
  first; `Counterexamples.AnswersStale` has it answer, with a token that is not the cold one, and
  `Counterexamples.StaleDiffers` asks a new session beside it. The answer of a call is never harmed by
  marks above the commit it finds (`Conversation.CallIsCold`): what they harm is a later rewind. A
  completed call leaves true marks exactly when the leftover ones tell the text it commits
  (`Generation.GeneratedMarksAreExact`), which, where states tell texts apart, is when the abandoned
  prompt and the new one start alike (`Resident.LeftoverIsExact`). So a prompt that is asked again, or
  goes on, after a cancel is safe (`Conversation.Consistent`), and any other is after
  `Session.Session.Prune`.
- A snapshot taken before the runner has ever run copies no state, so restoring it restores nothing
  (`engine/forward/resident.py:273-277`, `303-309`). A `turn` of an empty prompt commits such a
  snapshot; a cancelled `generate` after it leaves the recurrent state where the cancel found it, under
  an empty tape (`Counterexamples.KeepsState`). `Generation.UndoIsStopped` gives the condition, and
  `Session.Session.Turn` says which snapshot a turn commits.
- A close that drops the last token and injects nothing moves the text past the answer; the session
  then reports a diverged cache. A turn that is not cancelled ends so exactly when its callback made such
  a close (`Generation.DivergesExactly`, `Account.DoneIs`; `Counterexamples.TakesItBack` makes the call).
- A prompt that is exactly what the last turn committed, draft side and all, fails where a cold
  session would answer: the held id is already in the cache (`Counterexamples.AsksTwice`). Together with
  prompts of fewer than two ids these are the only ones refused for it (`Generation.Holds`,
  `Generation.GeneratedCompletes`).
- The ratio test floors the draft probability at 1e-30. A window and a whole sampled turn keep the
  target's law when the floor bites nowhere (`WindowLaw.WindowKeepsLaw`, `WindowLaw.TurnKeepsLaw`).
  Where it bites, a rejected draft can be drawn again, which the source takes to be impossible: exactly
  when the target favours that draft, or favours nothing (`Redrawn.RedrawnAgain`). Then `emitted_tokens`
  takes the draw for one more kept draft and emits the padding after it (`Redrawn.WindowEmits`);
  `FloorLaw.EmitsPadding` makes the two calls on tables that do so, although their draws alone have the
  target's law (`FloorLaw.LoneFavoured`). For all tables: the law is kept and no rejected draft is drawn
  again if and only if the floor bites nowhere (`FloorLaw.KeepsLawIsClean`).
- A final item is closed under its own place exactly when the output keeps an initial part of the
  streamed ids, and all of them once it holds a new one (`OrderedOutput.OrderedIsAligned`).
- The message stream is well formed exactly when no reasoning delta follows a text delta
  (`AnthropicStream.AnthropicStream.Finish`).
- An acknowledged cancel of a live generation is lost exactly when the end of its own start clears
  it, or a cancel of another id follows it (`Supervisor.MarkedAtEnd`). The first needs the id before the
  start has returned it; the second is open to any client: a cancel of an ended request, read while that
  one was live and written late, takes the mark of the next (`Supervisor.LostCancel`).
- A terminal row that cannot be written stays in progress beside the next request's row until the
  server restarts (`Supervisor.StuckRun`).

## Model

| member | source | states |
|---|---|---|
| `Conversation.Converse` | engine/forward/session.py:174-269 | resident equals cold over any sequence of calls, from any state, with the states in between: each is refused exactly when it has no budget or does not fit; a completed answer is the specified turn over its own drafts, copied or rolled, whatever the callback says, if its call is fit where it is asked and the completed calls before it were and agreed with the marks they found; of a covered and consistent conversation every answer is |
| `Conversation.HistoryIsCold` | engine/forward/session.py:174-269 | that, for every history of calls, cancels, errors and refusals |
| `Conversation.ColdAfterCancels` | engine/forward/session.py:330-353 | the first call that completes after any number of cancelled or failed ones answers as a cold session, with no pruning |
| `Conversation.CoveredIsCold` | engine/forward/session.py:174-269 | known beforehand: when no request can restart a forward over a past, and each prompt after a call that may be interrupted goes on from the same text, every answer is the cold one and the session stays honest |
| `Conversation.FreshKeeps` | engine/forward/session.py:50-65 | a new session is in the state from which that holds |
| `Conversation.Exchange` | engine/forward/session.py:174-269 | one call of it, refused or served, and the pruning if there is any: all that `Step` says of the states before and after |
| `Conversation.Call` | engine/forward/session.py:174-269 | one call from any proper state: when it is refused, when it completes, when its answer is the cold one, when the session is honest afterwards, and when no mark lies above its commit |
| `Conversation.CallIsCold` | engine/forward/session.py:174-269 | a fit call on an honest session answers as a cold one, whatever its callback and its drafts and whatever marks lie above the commit |
| `Conversation.CallIsHonest` | engine/forward/session.py:174-269 | and leaves it honest, if those marks agree with its prompt, as do the marks that it leaves |
| `Conversation.AmpleFits` | engine/forward/projections.py:243-260 | a prompt longer than the chunk floor with no lower cut never restarts on a warm session |
| `Conversation.BriefFits` | engine/forward/projections.py:243-260 | nor does a prompt at or below the floor with injections below it, on any session |
| `Conversation.RefusedIsHonest` | engine/forward/session.py:196-197 | a prompt that does not fit rolls an honest session back to an honest session |
| `Conversation.ScoredIsCold` | engine/forward/session.py:245-264 | an answer whose windows were scored on the exact text, with the drafts of that text, is the cold one |
| `Answers.AnswerIsExact` | engine/forward/projections.py:243-260 | with a silent callback on a network that tells, a completed answer of an honest session is the plain greedy continuation if and only if the prefill carries from where the call opens |
| `Answers.TurnIsExact` | engine/forward/projections.py:243-260 | for every callback that injects mildly and does not take the first token back: on a network that tells, a completed answer of an honest session is the specified turn if and only if the prefill carries from where the call opens |
| `Answers.AnswerIsTurn` | engine/forward/session.py:174-269 | whenever it carries, on every network |
| `Answers.AnswerIsGreedy` | engine/forward/session.py:174-269 | whenever it carries, on every network |
| `Answers.ForgottenFirst` | engine/forward/projections.py:250-258 | when it does not, the first token of the answer is that of a state that has forgotten |
| `Answers.FreshIsGreedy` | engine/forward/session.py:174-269 | a new session completes with the plain greedy continuation of every prompt of two ids or more |
| `Counterexamples.LosesPast` | engine/forward/session.py:174-269 | for every short prompt and longer one that extends it: two calls on a new session complete; the second answers with a token that is not the cold one and leaves something that is not a cold run of the tape |
| `Counterexamples.RestartDiffers` | engine/forward/session.py:174-269 | the two calls beside one on a new session: the answers differ |
| `Counterexamples.ResumesStale` | engine/forward/session.py:97-98 | for any three prompts that share a cut and leave different states there: three calls on a new session, one cancelled, and a rewind resume a state of the wrong prompt |
| `Counterexamples.AnswersStale` | engine/forward/session.py:97-98 | four calls: the last answers from the state of the wrong prompt, with a token that is not the cold one when the network tells the two states apart |
| `Counterexamples.StaleDiffers` | engine/forward/session.py:97-98 | the four calls beside one on a new session: the answers differ |
| `Counterexamples.AskFresh` | engine/forward/session.py:174-269 | a new session asked for one token gives the text's own |
| `Counterexamples.LongSecond` | engine/forward/projections.py:243-260 | a long suffix on a layer that is not ready: the turn completes, its token is not the text's own, and what it commits is false |
| `Counterexamples.LeavesMark` | engine/forward/session.py:330-353 | a prompt cancelled before its first window leaves a mark above the commit, with its own state |
| `Counterexamples.KeepsMark` | engine/forward/session.py:95-98 | another prompt that reaches the same cut completes truthfully and keeps that mark |
| `Counterexamples.StaleMisleads` | engine/forward/session.py:115-135 | a prompt that parts from it there goes back to the mark, and what is resident is false |
| `Counterexamples.StaleAnswers` | engine/forward/session.py:115-135 | a call that parts from the tape at a mark completes with the choice made on that mark's state, whatever it is |
| `Counterexamples.KeepsState` | engine/forward/resident.py:303-309 | a turn of nothing, then a cancelled call: the tape is empty, and the state is that of the abandoned prompt |
| `Counterexamples.BlankAborts` | engine/forward/session.py:330-353 | a cancelled call over a copy that holds no state leaves its prefill's state under the empty tape |
| `Counterexamples.AsksTwice` | engine/forward/cycle.py:314-322 | a prompt asked twice: answered, then refused for want of a held id |
| `Counterexamples.RepeatFails` | engine/forward/cycle.py:314-322 | so it is for every prompt that is what the session has committed |
| `Counterexamples.TakesItBack` | engine/forward/session.py:245-247 | one call whose callback takes its token back ends in the divergence error |
| `Counterexamples.TakenBackDiverges` | engine/forward/session.py:245-247 | so it is on every session |
| `Session.Session.Generate` | engine/forward/session.py:174-269 | one turn from a resident cache: busy and budget refusals touch nothing, a prompt that does not fit rolls back; any other call is the relation `Generated` of the state before and after; on a prompt with an id to hold it is aborted if and only if a look of the run saw a cancel, and else completes if no drop is empty |
| `Session.Session.Serve` | engine/forward/session.py:192-264 | open on the longest usable prefix, run the turn from there, commit or roll back |
| `Session.Session.Settle` | engine/forward/session.py:225-269 | an answer whose cursor adds up is committed, a cancel and every error are rolled back, with the outcome of each |
| `Session.Session.Drive` | engine/forward/session.py:218-224 | the turn of `ContinueDrafted` over an opened session: its marks, its windows, and the whole state when they stop |
| `Session.Session.Finish` | engine/forward/session.py:245-251 | the tape is the prompt and its answer less the held id, committed with the state the windows left |
| `Generation.GeneratedCompletes` | engine/forward/session.py:174-269 | a call completes if and only if its prompt has two ids and is not what the last turn committed, provided no look sees a cancel and no drop is empty; without an id to hold the error is the held-id one; with one it is aborted exactly when a look saw a cancel |
| `Generation.AnswerIs` | engine/forward/session.py:245-251 | the answer is the trace's, the tape prompt plus answer less the held id; the divergence error fires only when a drop was lost |
| `Generation.AnswerEnds` | engine/forward/cycle.py:454-457 | why a completed answer ends: the budget is used, or its last window is the first that the callback halted or that ended on a stop id with nothing injected after it |
| `Generation.DivergesExactly` | engine/forward/session.py:245-247 | a turn that is not cancelled, on a prompt with an id to hold, ends in the divergence error if and only if its callback dropped a token without an injection; else it completes |
| `Cancels.AbortsExactly` | engine/forward/cycle.py:373-459 | for every cancel flag: a call is aborted exactly when a look of the turn it would have been sees the flag set, with the ids of the windows before the first such look; else it is that turn |
| `Cancels.RanExactly` | engine/forward/cycle.py:373-459 | the first look that sees the cancel leaves whole windows when it is between two, and one more without its directive when it is inside |
| `Cancels.CarriesOn` | engine/forward/cycle.py:373-459 | every turn has its undisturbed windows, and they end |
| `Cancels.HeededSame` | engine/forward/cycle.py:373-459 | and there is one such trace |
| `Generation.GeneratedIsTrue` | engine/forward/session.py:174-264 | an honest session scores every window of a completed turn on the exact text and commits the truth, when no forward restarts over its past, whatever marks lie above the commit |
| `Generation.GeneratedIsHonest` | engine/forward/session.py:95-113 | when the marks above the commit agreed with the prompt, or there were none, the marks are true as well and none lies above the new commit |
| `Generation.GeneratedMarksAreExact` | engine/forward/session.py:97-98 | exactly when a completed call leaves true marks: when the leftover ones that now lie within the commit tell the text it committed |
| `Generation.AbandonedIsHonest` | engine/forward/session.py:330-353 | a call that does not complete leaves an honest session honest, whatever its forwards restarted |
| `Generation.AbandonedAgrees` | engine/forward/session.py:330-353 | the marks of a call that does not complete agree with its prompt, if those it found did and its prefill carries |
| `Generation.GeneratedReturns` | engine/forward/session.py:225-244 | a call that does not complete leaves the whole view it opened on |
| `Generation.UndoIsStopped` | engine/forward/session.py:330-353 | a rollback brings back what the turn began with, if and only if the commit copied a state or nothing has moved it |
| `Generation.GeneratedWarm` | engine/forward/projections.py:243-260 | ample prompts never restart a warm session, and leave tape, commit and marks warm |
| `Generation.GeneratedIsExact` | engine/forward/projections.py:243-260 | on the network that latches its first id a completed turn commits the truth if and only if its prefill carries and no injection is long before the layer is ready |
| `Generation.GeneratedProper` | engine/forward/session.py:174-269 | every call leaves the commit on the tape with a copy of its state, and the draft side at the commit |
| `Generation.TurnedIsHonest` | engine/forward/session.py:271-308 | a turn without the draft side commits the truth when its spans carry what it resumed and the marks above the commit agree with its prompt |
| `Generation.TurnedIsExact` | engine/forward/session.py:271-308 | and on the latching network only then |
| `Generation.TurnedReturns` | engine/forward/session.py:290-294 | a cancelled turn leaves the commit it rewound to |
| `Resident.RewoundIsLongest` | engine/forward/session.py:137-154 | the prefix a rewind keeps is the longest it can: no tape end, commit or reachable mark within what is shared lies beyond it |
| `Resident.RewoundIsHonest` | engine/forward/session.py:115-154 | wherever a rewind stops, state, rows, draft side and marks are again those of a cold run |
| `Resident.RewoundProper` | engine/forward/session.py:115-154 | it keeps a prefix, no mark above the commit, and readiness |
| `Resident.CutIsTrue` | engine/forward/session.py:115-135 | restoring a mark is right if and only if the mark tells the prefix it stands at |
| `Resident.LeftoverIsExact` | engine/forward/session.py:97-98 | where states tell texts apart, a mark left by one prompt serves another exactly when they start alike |
| `Resident.OpenedAgrees` | engine/forward/session.py:192-211 | opening a session keeps that its leftover marks agree with the prompt |
| `Resident.AgreesOn` | engine/forward/session.py:97-98 | a prompt that goes on from another agrees with the marks that it left |
| `Resident.ToCommitIsTrue` | engine/forward/session.py:141-150 | going back to the commit brings back a cold run of the committed tape |
| `Resident.RowsOfPrefix` | engine/forward/resident.py:279-285 | attention rows of a longer text serve every prefix of it |
| `Resident.OpenedIs` | engine/forward/session.py:195-212 | both caches stand at the commit, a prefix of the prompt; what was true, ready or unmarked stays so |
| `Resident.OpenedAtEnd` | engine/forward/cycle.py:314-322 | no id is left to hold exactly when the prompt is what the last turn committed, draft side and all |
| `Resident.CommonShares` | engine/forward/session.py:195-197 | the shared prefix is the longest |
| `Resident.PrefilledIs` | engine/forward/session.py:156-172 | a prefill leaves the prompt less its last id, the commit where the rewind left it, and the truth when its cuts carry |
| `Resident.PrefilledIsExact` | engine/forward/session.py:156-172 | and on the latching network only then |
| `Session.Session.Rewind` | engine/forward/session.py:137-154 | the tape if all of it is shared, else the commit if there is one and it is, else the longest mark, else zero: the whole state in each case |
| `Session.Session.FallBack` | engine/forward/session.py:151-154 | the longest mark within the limit when the draft rows reach it, else nothing |
| `Session.Session.KeepPrefix` | engine/forward/session.py:195-206 | the rewind for what the tape and the prompt share |
| `Session.Session.Open` | engine/forward/session.py:192-211 | a draft side that stands elsewhere is dropped, a prefix without one too, and a cycle is there |
| `Session.Session.PickMark` | engine/forward/session.py:116-125 | the longest mark within the limit, unless the draft cache is shorter than it |
| `Session.Session.RestoreMark` | engine/forward/session.py:115-135 | state, cursor, tape, commit, draft rows, carry and marks after a restore |
| `Session.Session.RestoreCommit` | engine/forward/session.py:141-150 | state, cursor and tape of the commit |
| `Session.Session.Cancel` | engine/forward/session.py:330-353 | the whole state after a cancel is the committed one with its draft mark, or nothing |
| `Session.Session.Commit` | engine/forward/session.py:310-328 | what is resident becomes the commit, with its draft mark |
| `Session.Session.Wipe` | engine/forward/session.py:67-87 | nothing is left; on a device that has run the pages and the block are kept for the next cycle, and else both go |
| `Session.Session.Prune` | engine/forward/session.py:330-353 | a cancel extended with pruning: the marks above the commit go, nothing else |
| `Session.Session.Prefill` | engine/forward/session.py:156-172 | the state after a prefill, or a refusal that touches nothing |
| `Session.Session.Turn` | engine/forward/session.py:271-308 | refused while busy; else the spans before the first set look are forwarded: all of them and it commits, with the copy that the runner gives, an empty one only where nothing has run, or fewer and it rolls back |
| `Session.Session.ExtendSpans` | engine/forward/session.py:290-299 | the state after the spans before the first set look |
| `Session.Session.Extend` | engine/forward/session.py:295-297 | the state after one span |
| `Session.Shared` | engine/forward/session.py:195-197 | the longest common prefix |
| `Account.RunsAgree` | engine/forward/session.py:174-264 | resident equals cold: two finished runs over one prompt with one source of drafts answer alike, wherever each prefix came from |
| `Account.RunIsTurn` | engine/forward/cycle.py:333-466 | a finished run, with its drafts copied or rolled, says exactly what the cache-free specification says |
| `Account.RunIsGreedy` | engine/forward/cycle.py:373-466 | without a callback, or with one that never answers, the answer, for any drafter, is the greedy chain cut at the first stop id or at the budget |
| `Account.TraceMeans` | engine/forward/cycle.py:373-466 | every id that was not injected is the target's own choice on exactly the text before it |
| `Account.MeansStep` | engine/forward/cycle.py:373-458 | one window and its directive keep that meaning |
| `Account.PlainStep` | engine/forward/cycle.py:373-458 | one silent window continues the greedy chain |
| `Account.TraceBalances` | engine/forward/cycle.py:391-458 | every run: cursor equation, conservation of drafts and tokens, bounds on the answer and on positions written |
| `Account.BalancedStep` | engine/forward/cycle.py:391-445 | one window and its directive keep the balance, trims and injections included |
| `Account.NeverDiverges` | engine/forward/cycle.py:373-458 | when no drop is empty, the cursor equation is exact, each window leaves an id or more, and the turn ends within `max_new` windows |
| `Account.DoneIs` | engine/forward/session.py:245-247 | the cursor equals prompt plus answer less one exactly when no drop was lost |
| `Account.LostIs` | engine/forward/cycle.py:261-266 | ids are lost exactly when some directive drops one and injects none |
| `Driven.DroveScored` | engine/forward/cycle.py:333-466 | a turn that begins on a prefix both caches hold, and restarts nowhere, scores every window on the exact text and leaves that text in both caches |
| `Driven.DroveIsExact` | engine/forward/projections.py:243-260 | on the latching network the state at the end of a turn is the text's if and only if no forward of it restarted |
| `Driven.RealScored` | engine/forward/cycle.py:373-458 | window by window |
| `Driven.OnwardCoupled` | engine/forward/cycle.py:377-445 | one window and its directive leave both caches on the longer text |
| `Driven.WindowScored` | engine/forward/cycle.py:377-410 | a window on caches that hold the text keeps what the specification keeps |
| `Driven.DroveTells` | engine/forward/cycle.py:325-328 | every mark of a prefill that carries tells its prefix, whatever follows |
| `Driven.DroveOver` | engine/forward/session.py:218-244 | whatever a turn returns, rows below its start are as it found them |
| `Driven.DroveCounts` | engine/forward/cycle.py:427-438 | the cursor and the draft counters at the end are the trace's |
| `Driven.DroveWithin` | engine/forward/cycle.py:373-458 | no page above prompt, budget, lost drops and one window or injection is written |
| `Driven.DroveWarm` | engine/forward/projections.py:243-260 | a warm start carries every forward of the turn and marks only ready states |
| `Driven.CoreDead` | engine/forward/projections.py:250-258 | a long injection into a layer that is not ready loses the state, and a lost state stays lost |
| `Driven.RealStops` | engine/forward/cycle.py:454-457 | a turn stops after the first window that the callback halts, or whose last id is a stop id with nothing injected after it, and after no other; a stop inside reasoning whose close was injected goes on |
| `Driven.HeardAnswers` | engine/forward/cycle.py:440-448 | each directive is what the callback answers on what the turn has produced, the window's own ids included |
| `Caches.FedAllCoupled` | engine/forward/cycle.py:313-328 | spans that carry the past leave both caches on the longer text |
| `Caches.FedAllDead` | engine/forward/projections.py:250-258 | a prefill that restarts over a past forgets it |
| `Caches.ChosenIsSpec` | engine/forward/cycle.py:390-410 | on caches that hold the text a window keeps what the specification keeps |
| `Caches.DraftedIsSpec` | engine/forward/cycle.py:377-384 | on caches that hold the text, what a window drafts is a function of the text: its copy, or a roll over its pairs |
| `Caches.WindowedCoupled` | engine/forward/cycle.py:420-438 | after the cut and the repair both caches hold the kept text |
| `Caches.InjectedCoupled` | engine/forward/cycle.py:261-285 | after a directive both caches hold the injected text |
| `Caches.MarkedAlongGrew` | engine/forward/session.py:95-113 | the marks of a prefill are old ones and cuts of this prompt; while there is room every cut is marked and nothing goes |
| `Caches.MarkedAlongTell` | engine/forward/session.py:95-113 | the new ones tell their prefixes when the prefill carries |
| `Restart.CarriedIsExact` | engine/forward/projections.py:243-260 | a prefill keeps every past, for every network and text, if and only if its spans carry it |
| `Restart.CarriedIs` | engine/forward/projections.py:243-260 | that is: the layer is ready, or no span is long, or the first starts at 0 and is long |
| `Restart.CarriesIsExact` | engine/forward/projections.py:243-260 | a forward keeps every past if and only if the layer is ready, there is no past, or the chunk is short |
| `Restart.LatchReads` | engine/forward/projections.py:243-260 | the network that tells a restarted state from a carried one |
| `Restart.WalkForgets` | engine/forward/projections.py:243-260 | spans that restart at a position have forgotten what was latched below it |
| `Runner.Runner.Forward` | engine/forward/resident.py:94-174 | rows below the cursor stay; state, rows and scores are those of reading the ids from what the kernel is really given; a short chunk can be cut afterwards |
| `Runner.Runner.RewindRecurrent` | engine/forward/resident.py:311-351 | after a cut the state is that of the first kept ids |
| `Runner.Runner.Restore` | engine/forward/resident.py:303-309 | a copied state comes back and the window closes; an empty copy restores nothing |
| `Runner.Runner.Rezero` | engine/forward/resident.py:356-368 | state and pages are zero and not ready, and the runner still counts as started |
| `Runner.Runner.Reset` | engine/forward/resident.py:370-384 | the state is zero and not ready, and the runner is unstarted |
| `GdnWindow.GdnState.Remember` | engine/forward/projections.py:156-183 | the reused stash holds the chunk's inputs as a prefix, and the state before it |
| `GdnWindow.GdnState.Forward` | engine/forward/projections.py:238-260 | the state is the fold of the inputs, and a chunk of 2 to 8 can be cut afterwards |
| `GdnWindow.GdnState.Rewind` | engine/forward/projections.py:186-213 | a cut leaves exactly the fold of the kept inputs over the state before the chunk; both error cases |
| `Target.ReadIsFold` | engine/forward/projections.py:186-213 | the recurrent state after a chunk is the fold of the chunk's inputs |
| `Target.ReadAppend` | engine/forward/session.py:1-16 | reading two parts in turn is reading the whole |
| `Target.ReadKeepsRows` | engine/forward/resident.py:279-285 | later ids never change the rows already written |
| `Target.RowsAreOf` | engine/forward/cycle.py:300-330 | row i of a chunk is the row of the text up to it |
| `Continue.ContinueDrafted` | engine/forward/cycle.py:333-466 | the whole turn as the relation `Drove`: when the prompt is refused, the marks of its cuts, the trace its caches really make with the drafts its index and block really give, the cursor and answer of a turn that ended, and the ids and the look of one that was cancelled |
| `Continue.AfterPrefill` | engine/forward/cycle.py:361-466 | the windows that follow a prefill, and the index that copied drafts use |
| `Continue.WindowLoop` | engine/forward/cycle.py:373-459 | the loop ends, within horizon and budget, where its trace leads, no look having seen a cancel; or at the first look that did |
| `Continue.Pass` | engine/forward/cycle.py:373-456 | one pass leads from one spot of the turn to the next |
| `Continue.TurnStep` | engine/forward/cycle.py:377-456 | one window and what its directive asks for; a set cancel leaves before the directive |
| `Continue.WindowStep` | engine/forward/cycle.py:377-432 | what is drafted, copied or rolled, what is kept, and that cut, repair and index leave both caches and the index together |
| `Continue.InjectStep` | engine/forward/cycle.py:261-285 | so does a directive |
| `Turns.RunWindow` | engine/forward/cycle.py:377-438 | one window: what is drafted, what is kept, and both caches after it |
| `Turns.ScoreAndCut` | engine/forward/cycle.py:385-425 | the single pass and the restore-and-replay branch reach the same state; the cut never finds a missing stash |
| `Turns.CutTo` | engine/forward/cycle.py:420-426 | either way of cutting leaves the kept ids |
| `Turns.Keep` | engine/forward/cycle.py:390-410 | matching prefix, budget trim and stop trim; the empty emission is dead |
| `Turns.RepairTo` | engine/forward/cycle.py:427-438 | both repairs leave the same draft cache |
| `Turns.ApplyInject` | engine/forward/cycle.py:261-285 | held id, answer and both caches after an injection, with and without a drop, and the refusal |
| `Turns.ForwardAndAbsorb` | engine/forward/cycle.py:266-272 | a forward and its absorbed rows |
| `Turns.PrefillHeld` | engine/forward/cycle.py:300-330 | the prompt less its last id is forwarded on its cuts, each one marked, or the prompt is refused |
| `Turns.PrefillSpans` | engine/forward/cycle.py:313-328 | cut by cut |
| `Decode.WindowIsOwn` | engine/forward/mtp.py:18-50 | every kept id is the target's choice on the exact text, and all but the last were drafted |
| `Decode.WindowStops` | engine/forward/cycle.py:402-410 | a window stops exactly when its last id does, and no earlier id does |
| `Decode.PickIs` | engine/forward/cycle.py:390-410 | a window keeps the samples up to the first that was not drafted, or the first stop id, or what there is room for, and not one fewer |
| `Decode.OwnIsGreedy` | engine/forward/mtp.py:18-50 | a run of own choices is a run of greedy decoding |
| `Decode.StopCutIsFirst` | engine/forward/cycle.py:402-410 | the cut is after the first stop id |
| `Decode.SpokeKept` | engine/forward/cycle.py:438-440 | kept ids are the target's own |
| `Decode.SpokeInject` | engine/forward/cycle.py:261-285 | an injection leaves the earlier ids the target's own |
| `Cycle.ShiftRows` | engine/forward/cycle.py:62-77 | each id is paired with the row of the id before it |
| `Cycle.AbsorbPairs` | engine/forward/cycle.py:124-129 | a chunk continues the pairing, across chunk borders |
| `Cycle.RepairPairs` | engine/forward/cycle.py:153-181 | a repaired cache is the one a prefill of the kept text leaves |
| `Cycle.DraftCycle.AbsorbPrefill` | engine/forward/cycle.py:124-129 | draft row i pairs id i with the target's row i - 1, and the carry is the last row |
| `Cycle.DraftCycle.Propose` | engine/forward/cycle.py:131-151 | the roll, the row it starts at, and the missing carry |
| `Cycle.DraftCycle.Repair` | engine/forward/cycle.py:165-181 | the held id's row stays, matched rows are rewritten, the rest go |
| `Cycle.DraftCycle.RepairCopied` | engine/forward/cycle.py:153-163 | the held id enters with the matched ones |
| `Cycle.DraftCycle.Rejoin` | engine/forward/session.py:338-351 | rows, carry and counters of a marked position |
| `Draft.MTPDraft.WriteKv` | engine/forward/draft.py:262-296 | an append in a growing store, whatever stale rows it held |
| `Draft.MTPDraft.Reserve` | engine/forward/draft.py:262-287 | growth keeps the live rows, and takes the whole context at once or the fewest doublings |
| `Draft.MTPDraft.Truncate` | engine/forward/draft.py:255-260 | a prefix of the live rows, or a refusal |
| `Draft.MTPDraft.Prefill` | engine/forward/draft.py:484-491 | the rows do not depend on the chunking |
| `Draft.MTPDraft.Roll` | engine/forward/draft.py:497-534 | each later draft is paired with the block's own output |
| `Draft.PairsExtend` | engine/forward/cycle.py:62-77 | pairs of a longer text |
| `Draft.PairsPrefix` | engine/forward/draft.py:255-260 | a truncation keeps the pairs of the shorter text |
| `Mtp.DraftTokens` | engine/forward/mtp.py:13-15 | 1 to 7, and the setting itself when it lies there |
| `Mtp.AcceptedPrefix` | engine/forward/mtp.py:18-26 | the number of leading agreements |
| `Mtp.EmittedTokens` | engine/forward/mtp.py:36-50 | the kept ids are the leading samples up to the first mismatch; the refusals |
| `Mtp.MatchedIsUnique` | engine/forward/mtp.py:18-26 | the first mismatch determines the count |
| `Schedule.SuffixBounds` | engine/forward/schedule.py:12-31 | the loop makes the cuts of the recursive description |
| `Schedule.BoundsLaw` | engine/forward/schedule.py:12-31 | a gap-free partition, spans at most a chunk, page-aligned cuts, the last partial page alone |
| `Schedule.NextCutLaw` | engine/forward/schedule.py:22-29 | the loop always advances, so its break is dead |
| `Schedule.NextCutIsFarthest` | engine/forward/schedule.py:22-29 | a chunk ends as far as its size, the pages and the last page boundary let it |
| `Schedule.SplitSpans` | engine/forward/cycle.py:288-297 | each span is split at its own cuts |
| `Schedule.SplitEnds` | engine/forward/cycle.py:288-297 | the partition is refined at every interior cut and nowhere else |
| `Schedule.SpansPartition` | engine/forward/cycle.py:300-313 | the spans of a prefill partition it |
| `Schedule.FirstIsLong` | engine/forward/cycle.py:300-313 | the first span of a cold prompt is long when the prompt is and no extra cut is lower |
| `SuffixIndex.SuffixIndex.Propose` | engine/forward/cycle.py:48-55 | what followed the last occurrence of history and held id, or nothing |
| `SuffixIndex.CopiedIs` | engine/forward/cycle.py:48-55 | what is copied: the ids after the last place where the end of the text stood before, if there are enough of them; nothing otherwise |
| `SuffixIndex.IndexAgreesWithScan` | engine/forward/cycle.py:33-55 | the table answers as a scan from the end |
| `SuffixIndex.SuffixIndex.Extend` | engine/forward/cycle.py:41-46 | the table stays the index of the history |
| `SuffixIndex.IndexOne` | engine/forward/cycle.py:41-46 | a new position becomes the last of its gram |
| `SuffixIndex.Grow` | engine/forward/cycle.py:41-46 | an appended id changes no indexed gram |
| `Marks.MarkTable.OnSpan` | engine/forward/session.py:95-113 | an entry is kept; a new one takes free room, or the place of the victim; a full table of ends stays as it is: the whole table in each case |
| `Marks.MarkTable.Slot` | engine/forward/session.py:104-111 | reusing an evicted buffer changes no other mark |
| `Marks.MarkTable.Evict` | engine/forward/session.py:104-110 | the victim goes, and only it; without an interior mark nothing does |
| `Marks.Victim` | engine/forward/session.py:107-109 | the first interior mark whose removal leaves the smallest gap |
| `Marks.VictimIsClosest` | engine/forward/session.py:107-109 | over the marks themselves: the neighbours of the one given up are the closest of any, and the first such |
| `Marks.MarkTable.Best` | engine/forward/session.py:118-120 | the longest mark within the limit |
| `Marks.TellsUpTo` | engine/forward/session.py:133-134 | dropping the later marks leaves marks of the shorter text |
| `WindowLaw.WindowKeepsLaw` | engine/forward/sample.py:169-195 | emitting a window of drafts from q, trimmed at the budget and the first stop id, and then sampling on is sampling from p all along |
| `WindowLaw.TurnKeepsLaw` | engine/forward/cycle.py:373-458 | so is a whole sampled turn, whatever proposes each window |
| `WindowLaw.OverStays` | engine/forward/cycle.py:394-410 | what comes after the budget or a stop id is trimmed away |
| `WindowLaw.WindowUnfold` | engine/forward/sample.py:178-195 | later drafts integrate out: the first draft settles on its own |
| `WindowLaw.DrawnAfter` | engine/forward/sample.py:178-195 | drafts after a kept draft are drafts of the longer text |
| `SampledSession.ResidentSamples` | engine/forward/session.py:174-269 | a sampled turn of an honest session whose prefill carries has the law of sampling from the exact text, whatever the session held, drafts copied or drawn, with the ratio test or one draw per row |
| `SampledSession.SampledAlike` | engine/forward/session.py:174-269 | two sessions, whatever they hold, answer one prompt with one law |
| `SampledSession.SampledHolds` | engine/forward/session.py:245-251 | with probability one both caches hold the text that the turn ends with |
| `Chance.PlayedIsSampled` | engine/forward/cycle.py:373-458 | a sampled turn, its windows scored, drafted, trimmed and cut by what the caches hold, has the law of sampling from the target, while the caches held the text when it began |
| `Chance.TestedIs` | engine/forward/sample.py:169-195 | the ratio test on the tables of the caches, with what `emitted_tokens` makes of its samples, is the one on the text |
| `Chance.DrawnIs` | engine/forward/cycle.py:212-242 | one draw per row, keeping the drafts that were drawn too, is sampling as well |
| `Chance.RolledIs` | engine/forward/draft.py:497-534 | drafts drawn one after the other from the block's outputs are drawn as the text says |
| `Chance.RollReads` | engine/forward/draft.py:516-534 | the greedy roll reads the same outputs |
| `Chance.CopyIsCertain` | engine/forward/cycle.py:378-381 | a copied window is its copy with certainty |
| `Chance.TableIsOwn` | engine/forward/cycle.py:385-391 | each row of a window is the target's on exactly the text before it |
| `Chance.TrimEnds` | engine/forward/cycle.py:394-410 | a trimmed window is all of it or ends the turn, and goes no further |
| `FloorLaw.KeepsLawIsClean` | engine/forward/sample.py:182-192 | for all tables: the law is kept and no rejected draft is drawn again, if and only if the floor bites nowhere |
| `FloorLaw.NotFavouredBreaks` | engine/forward/sample.py:182-190 | an id on which the floor bites, and which the target does not favour, comes out too seldom |
| `FloorLaw.ClearLawIsClean` | engine/forward/sample.py:182 | with one id that the target favours and the floor leaves alone, the law by itself is kept if and only if the floor bites nowhere |
| `FloorLaw.RejectsMore` | engine/forward/sample.py:182-187 | where the floor bites, more is rejected than the residual holds |
| `FloorLaw.BiteBreaks` | engine/forward/sample.py:182-190 | and the favoured id is then emitted too often |
| `FloorLaw.LoneFavoured` | engine/forward/sample.py:182 | two tables on which the floor bites and the law of the draws holds all the same |
| `FloorLaw.LoneEmitsPadding` | engine/forward/sample.py:182-192 | on them a rejected draft is always drawn again, and the window emits it and padding |
| `FloorLaw.EmitsPadding` | engine/forward/mtp.py:36-50 | the two calls of such a window: the emission is the draft and the padding id |
| `Speculate.AcceptOrRedraw` | engine/forward/sample.py:179-192 | one test with its redraw has the target's law, for every value |
| `Speculate.KeptMass` | engine/forward/sample.py:182-183 | a draft is kept with the shared mass if and only if the floor does not bite |
| `Speculate.RedrawExpect` | engine/forward/sample.py:186-190 | the redraw, times the rejected mass, is the residual |
| `Speculate.RejectedMass` | engine/forward/sample.py:186-187 | the rejected mass is the residual's |
| `Sampling.OverlapSymmetric` | engine/forward/sample.py:182-186 | the mass two tables share does not depend on which is iterated |
| `Sampling.ResidualExpect` | engine/forward/sample.py:186 | the residual is what the shared mass leaves of p |
| `Redrawn.RejectedIsGone` | engine/forward/sample.py:183-190 | after a rejection where the floor does not bite on the draft, the residual has mass and does not hold it, so the fallback is not reached; anywhere, the residual holds it exactly when the target favours it |
| `Redrawn.RedrawnAgain` | engine/forward/sample.py:183-191 | a rejected draft can be drawn again exactly when the floor bites on it and the target favours it, or favours nothing and the fallback is taken |
| `Redrawn.EmitsDrawn` | engine/forward/mtp.py:36-50 | whatever id is drawn after a rejection: a draw of the rejected draft is emitted with padding after it, any other ends the emission |
| `Redrawn.WindowEmits` | engine/forward/mtp.py:36-50 | the window emits the kept drafts and one draw, with padding exactly when the draw is the rejected draft, which it never is where the floor does not bite on it |
| `Redrawn.FullWindowEmits` | engine/forward/mtp.py:36-50 | a fully kept window emits its bonus |
| `Redrawn.InResidual` | engine/forward/sample.py:186 | an id is in the residual exactly when the target favours it |
| `Redrawn.FloorBreaksLaw` | engine/forward/sample.py:182 | two laws below the floor whose window does not keep the law of the target |
| `Sampler.SpeculativeWindow` | engine/forward/sample.py:169-195 | the kept drafts, one draw from the right table, and padding |
| `Sampler.DrawFrom` | engine/forward/sample.py:157-166 | the draw falls in the interval of its id |
| `Sampler.Draw` | engine/forward/sample.py:82-91 | the draw falls in the interval of its position; the last return is dead |
| `Sampler.HitsOnce` | engine/forward/sample.py:82-91 | the intervals are disjoint, and an id of weight 0 owns none |
| `Sampler.NucleusIsMask` | engine/forward/sample.py:94-103 | the kept count is the prefix with cumulative mass within top_p, the first id always |
| `Sampler.TargetRowIsLaw` | engine/forward/sample.py:136-154 | every served row sums to 1 over distinct ids |
| `Sampler.TargetRowServes` | engine/forward/sample.py:136-154 | each id that the nucleus keeps is served its weight's share of what is kept, every other id of the row nothing |
| `Sampler.TargetRowServesOnly` | engine/forward/sample.py:136-154 | and no id outside the row |
| `Sampler.DraftRowServes` | engine/forward/draft.py:552-564 | the same of the proposer's row |
| `Sampler.RowsServeAlike` | engine/forward/draft.py:552-564 | proposer and verifier give every id the same mass |
| `Softmax.DecodeAttention.Attend` | engine/forward/draft_attention.py:93-109 | split-K decode equals plain softmax attention, for every length from 1 |
| `Softmax.AttentionIsMix` | engine/forward/draft_attention.py:65-79 | the output is the sum of the values, each weighed by its key's share of the exponentials of the scores |
| `Softmax.Partial` | engine/forward/draft_attention.py:32-61 | the rescaled loop keeps the peak, the mass and the weighted sum of its slice |
| `Softmax.GatherIsSoft` | engine/forward/draft_attention.py:65-79 | merging the slices, empty ones included, is one sum over their keys |
| `Softmax.SlicesCover` | engine/forward/draft_attention.py:32-36 | the slices start at 0 and reach the length |
| `Softmax.SliceEdges` | engine/forward/draft_attention.py:32-36 | each slice ends where the next begins |
| `Softmax.Rescale` | engine/forward/draft_attention.py:48-55 | moving the reference point rescales every sum by one factor |
| `Softmax.PeakIsMax` | engine/forward/draft_attention.py:47-49 | no exponent of a slice is positive |
| `Softmax.MergeBottomRight` | engine/forward/draft.py:68-83 | the log-sum-exp merge of past and chunk is causal attention over both |
| `Softmax.DraftAttendIsCausal` | engine/forward/draft.py:33-65 | every branch is bottom-right causal |
| `Utf8.DecodeAppend` | engine/forward/chat.py:66-81 | decoding in two parts decodes only an open tail again |
| `Utf8.RoundTrip` | engine/forward/chat.py:32-43 | decoding undoes encoding, for every text of scalar values |
| `Utf8.FirstIsLongest` | engine/forward/chat.py:46-52 | what a hole stands for: the longest beginning of a character that the bytes begin with, or one byte; it is open when it is all there is and begins a character |
| `Utf8.EncodeBack` | engine/forward/chat.py:32-43 | encoding undoes decoding, for every well-formed character |
| `Incremental.StreamPiece` | engine/forward/chat.py:46-63 | exactly the new stable characters when nothing was rewritten, otherwise from the first change and not before it |
| `Incremental.IncrementalText.Push` | engine/forward/chat.py:83-94 | what was sent is a stable prefix of the whole decode; the anchor moves exactly when enough ids lie behind it and their text is complete |
| `Incremental.IncrementalText.Flush` | engine/forward/chat.py:96-101 | all pieces together are one decode of all ids, for any split into pushes |
| `Incremental.StableGrows` | engine/forward/chat.py:46-58 | what was stable stays, whatever bytes follow |
| `Incremental.Joins` | engine/forward/chat.py:66-73 | at an anchor the whole decode is the two decodes in a row |
| `Incremental.DecodeIs` | engine/forward/chat.py:66-73 | where every piece is whole characters, what is decoded is the text of each id in turn |
| `Acceptor.Acceptor.OnAccepted` | engine/forward/chat.py:287-318 | what the callback has seen is what the turn has produced once its directive is applied; reasoning is closed once; what is shown |
| `Acceptor.ClosesAre` | engine/forward/chat.py:287-318 | the answers of the callback make a listener that injects at most the close ids, never drops a token without one, and is silent after its one close |
| `ResponsesStream.NumbersCount` | server/stream.rs:18-22 | event i carries number i |
| `ResponsesStream.AddedOnceBefore` | server/stream.rs:28-55 | each item is added once, before its other events, all under one index |
| `ResponsesStream.KnownWasAdded` | server/stream.rs:28-55 | every known id has its added event |
| `ResponsesStream.ResponsesStream.Add` | server/stream.rs:28-55 | the index of an item, and whether it is new; a new one is added and its part opened |
| `ResponsesStream.ResponsesStream.Piece` | server/stream.rs:57-73 | a delta of its own item, joined to its earlier ones, inside the grammar |
| `ResponsesStream.ResponsesStream.Close` | server/stream.rs:87-116 | an item lives its whole life in order: its part, its deltas, its own text, the end of the part, its end; the deltas of a new item join to its text |
| `ResponsesStream.ResponsesStream.Finish` | server/stream.rs:87-118 | each output item is done once, in order, under its assigned index, closed with its own text; items outside the output are left alone; the response ends last |
| `OrderedOutput.OrderedIsAligned` | server/stream.rs:75-85 | the k-th ordered item is closed under index k, if and only if the output keeps the stream |
| `OrderedOutput.OrderedIs` | server/stream.rs:75-85 | the sort permutes the output into streamed order |
| `OrderedOutput.OrderedStable` | server/stream.rs:75-85 | items with one key, new ones among them, keep their order |
| `OrderedOutput.KeyIsPlace` | server/stream.rs:75-85 | a kept initial part stands at its own places |
| `AnthropicStream.AnthropicStream.Delta` | server/anthropic.rs:519-539 | a delta in the block of its kind, with its text |
| `AnthropicStream.AnthropicStream.Finish` | server/anthropic.rs:541-568 | a reader has every block of the message once: those that were streamed, then in order every tool with its arguments, the first reasoning if none was streamed, and the first text if none was; and the stream is well formed if and only if no reasoning came after text |
| `AnthropicStream.StreamedSnoc` | server/anthropic.rs:519-539 | deltas that come in order make one block of reasoning and one of text, with those deltas |
| `AnthropicStream.OutOfOrderSnoc` | server/anthropic.rs:519-539 | when one more delta breaks the order |
| `AnthropicStream.DeltaReads` | server/anthropic.rs:519-539 | one delta closes the block of the other kind and lands in its own, and breaks the stream exactly when it is reasoning after text |
| `AnthropicStream.DeltaPuts` | server/anthropic.rs:519-539 | what one delta sends is one more delta in its block, or a new block of its kind |
| `Supervisor.StepKeeps` | server/worker.rs:129-205 | every atomic step keeps the supervisor invariant |
| `Supervisor.RunKeeps` | server/worker.rs:129-205 | in every interleaving one live request, pending only while busy, one row in progress unless a terminal write failed |
| `Supervisor.ReachableKeeps` | server/worker.rs:129-205 | so in every state that can be reached from the start, with no assumption on it |
| `Supervisor.EndedOnce` | server/store.rs:48-67 | a row takes one terminal status, across crash and reopen |
| `Supervisor.LateRelease` | server/worker.rs:198-205 | a late release changes nothing |
| `Supervisor.MarkedAtEnd` | server/worker.rs:146-179 | over every run: a live generation is marked at the end if and only if the last word on it was a cancel of its own, or nobody spoke and it was marked before |
| `Supervisor.LostCancel` | server/worker.rs:171-179 | a run that a client can cause: the mark of the second request is taken by the late cancel of the first, which had ended |
| `Supervisor.NeverMarked` | server/worker.rs:167-179 | a generation nobody asked to cancel is never marked |
| `Supervisor.ServeIsClean` | server/store.rs:21-36 | reopening leaves no row in progress |
| `Supervisor.CrashFails` | server/store.rs:21-36 | every row in progress at a crash is failed, without a snapshot, once the server is up again, over every run |
| `Supervisor.EndedWasWritten` | server/store.rs:48-67 | every status that a row ends with was written by a finish of its own request, code and snapshot, or is the failure of a reopening |
| `Supervisor.RowWasBegun` | server/store.rs:38-46 | a row was begun by its own request, in a write that went through |
| `Supervisor.WrittenStays` | server/store.rs:48-67 | a finish that could be written is what the row says ever after |
| `Supervisor.ParentCompleted` | server/store.rs:81-84 | only a request that finished as completed, with its snapshot, is ever readable as a parent |
| `Supervisor.Recovers` | server/store.rs:21-36 | a server that is down can always come back |
| `Supervisor.CanEnd` | server/worker.rs:129-205 | a live request can always be brought to its end, and then the next one is let in |
| `Supervisor.ParentStays` | server/store.rs:81-84 | a readable parent stays readable |
| `Supervisor.StuckRun` | server/service.rs:380-392 | a run whose terminal write fails leaves two rows in progress |
| `CancelSlot.CancelSlot.Begin` | engine/forward/worker.py:154-160 | a cancel that came first is honoured, and only its own generation's |
| `CancelSlot.CancelSlot.NoteCancel` | engine/forward/worker.py:167-172 | a cancel for another generation leaves the active one alone |

## Left out

- GPU numerics, quantization, rounding, RoPE and RMSNorm: the target, the draft block and the recurrent step are uninterpreted functions, and a forward of several ids is the fold of the forwards of each.
- The layers of a network: one object stands for all Gated DeltaNet layers, which are forwarded, stashed, cut and restored in lock-step.
- Allocation of the stash on first use: the model allocates it with the state; no path reads it before a write.
- CUDA graph capture and replay, warm-up counts and decode buckets: a replay is taken to have the eager effect.
- Vision rows, MRoPE tables and image ids: text turns only.
- Window and phase timing: the number of windows is the length of the trace.
- `verify_window` and `MTPDraft.propose`: not on the resident path.
- The FP8 branch of the draft attention: a kernel, taken to compute the same mix.
- Exceptions raised inside a forward, allocation failures and non-integer budgets.
- The Gumbel draw of the proposer: the model takes its draws to have the distribution it reports.
- Measure theory: a uniform draw is its interval, and an expectation is a finite sum.
- The tokenizer and the tool-call parser: ids stand for fixed byte pieces, and the parser's channel is a parameter.
- HTTP routing, SQL text, JSON shapes, request translation, timeouts as real time, backpressure: nondeterministic steps where they matter.
- Continue.ContinueDrafted: the callback is silent from some window on; an endless series of empty drops would not end in the source either.
- A session that samples: the classes choose by a function of each row, the greedy one or any other; a turn that draws is a function of both caches (`Chance`), each draw an expectation, with a silent callback.
- Sampler.Draw: one row; the batched device copy of a window is not modelled.
- Softmax.DecodeAttention.Attend: one query row and one value coordinate; heads and rows share nothing but the slices.
- Supervisor.EndedOnce: one status per id; the text of a row and its idempotency key are not part of the model.
- OrderedOutput.OrderedIs: the in-place sort is a stable insertion on a sequence, since the source sorts a value it owns.
- The draft cursor and the target cursor are one number: the errors that report them apart are unreachable and have no branch here.
- Freed host buffers: a mark names its buffers by number, and those of a forgotten mark stay in the list unused.

/** The agent loop: model, gate, and a named reason for every exit (grapharc/harness/agent.py). */
module Agent {
  import opened Options
  import opened Texts
  import opened Permissions
  import opened Gate
  import opened Turns

  datatype StopReason = TargetMet | MaxIterations | NoProgress | BudgetExhausted | ModelError

  datatype ModelAnswer = Says(reply: Reply) | Raises(message: Text) | HitsCeiling(message: Text)

  /** What the loop asks of its surroundings: the model's reply to a transcript, the budget meter before
      each call, and how results, failures and arguments read as text. */
  datatype Surroundings = Surroundings(
    model: (nat, seq<Message>) -> ModelAnswer,
    exceeded: nat -> bool,
    show: Value -> Text,
    explain: Failure -> Text,
    isCallShape: Text -> bool,
    hint: Text -> Text,
    dump: Dump,
    noArgs: Args)

  datatype AgentResult = AgentResult(output: Text, reason: StopReason, iterations: nat, records: seq<Record>, partialOutput: Text)

  /** A run returns a result, or the run's hard ceiling is raised through it. */
  datatype RunResult = Finished(result: AgentResult) | CeilingRaised

  // ---- Records -------------------------------------------------------------------------

  /** A result longer than the limit is cut there, and says by how much. */
  function Truncated(limit: nat, text: Text): (r: Text)
    ensures |text.chars| <= limit ==> r == text
    ensures |text.chars| > limit ==> |r.chars| > limit && r.chars[..limit] == text.chars[..limit]
  {
    if |text.chars| > limit
    then Text(text.chars[..limit] + "\U{2026}[truncated " + Digits(|text.chars| - limit) + " chars]")
    else text
  }

  function Prefixed(prefix: string, text: Text): Text { Text(prefix + text.chars) }

  datatype Executed = Done(record: Record) | Ceiling

  function ErrorDetail(env: Surroundings, tool: Text, message: Text): Text {
    var detail := Prefixed("TOOL_ERROR: ", message);
    if env.isCallShape(detail) then Text(detail.chars + env.hint(tool).chars) else detail
  }

  /** What the model hears about a call. Only the run's ceiling is not turned into a record. */
  function RecordFor(env: Surroundings, limit: nat, iteration: nat, tool: Text, args: Args, outcome: Outcome): Executed {
    match outcome
    case Returned(v) => Done(Record(iteration, tool, args, Ok, Truncated(limit, env.show(v)), Nobody))
    case Failed(BudgetExceeded(_)) => Ceiling
    case Failed(PermissionDenied(why)) =>
      Done(Record(iteration, tool, args, Denied, Prefixed("PERMISSION_DENIED: ", env.explain(PermissionDenied(why))), ThePolicy))
    case Failed(SandboxViolation(m)) =>
      Done(Record(iteration, tool, args, Errored, Prefixed("SANDBOX_VIOLATION: ", m), TheSandbox))
    case Failed(OtherError(m)) => Done(Record(iteration, tool, args, Errored, ErrorDetail(env, tool, m), Nobody))
  }

  function Invalid(env: Surroundings, limit: nat, iteration: nat, call: BadCall): Record {
    var error := if call.error.chars != "" then call.error else Prefixed("arguments are not valid JSON: ", call.raw);
    Record(iteration, call.name, env.noArgs, Errored,
           Text("INVALID_TOOL_CALL: " + Truncated(limit, error).chars + "\nNothing ran. Send this call again with valid JSON arguments."), Nobody)
  }

  // ---- What a call becomes -------------------------------------------------------------

  /** The gate as it stands during a run. */
  datatype Keeper = Keeper(w: World, tools: map<Text, ToolSpec>, glob: Glob, policy: Policy) {
    ghost predicate Named() { forall n :: n in tools ==> tools[n].name == n }
  }

  /** `shown` is the text, or the text cut at the limit and how much of it is missing. */
  ghost predicate ShowsUpTo(limit: nat, text: Text, shown: Text) {
    if |text.chars| <= limit then shown == text
    else
      && |shown.chars| > limit && shown.chars[..limit] == text.chars[..limit]
      && shown.chars[limit..] == "\U{2026}[truncated " + Digits(|text.chars| - limit) + " chars]"
  }

  /** `detail` is the message of a tool's error, with the hint about its parameters where that helps. */
  ghost predicate TellsError(env: Surroundings, tool: Text, message: Text, detail: Text) {
    var told := Text("TOOL_ERROR: " + message.chars);
    detail.chars == told.chars + if env.isCallShape(told) then env.hint(tool).chars else ""
  }

  /** The record says how the gate ended the call: a success exactly when a value was returned, and then
      with that value; a refusal by the policy or by the sandbox exactly when that is what failed. */
  ghost predicate TellsOutcome(env: Surroundings, limit: nat, outcome: Outcome, r: Record) {
    && (r.status == Ok <==> outcome.Returned?)
    && (r.status == Denied <==> outcome.Failed? && outcome.failure.PermissionDenied?)
    && (r.refusedBy == ThePolicy <==> outcome.Failed? && outcome.failure.PermissionDenied?)
    && (r.refusedBy == TheSandbox <==> outcome.Failed? && outcome.failure.SandboxViolation?)
    && (outcome.Returned? ==> ShowsUpTo(limit, env.show(outcome.value), r.detail))
    && (r.status == Denied ==> r.detail.chars == "PERMISSION_DENIED: " + env.explain(outcome.failure).chars)
    && (r.refusedBy == TheSandbox ==> r.detail.chars == "SANDBOX_VIOLATION: " + outcome.failure.message.chars)
    && (r.status == Errored && r.refusedBy == Nobody ==>
          outcome.failure.OtherError? && TellsError(env, r.tool, outcome.failure.message, r.detail))
  }

  /** What the n-th call to reach the gate became: the run's ceiling is raised if and only if that is how
      the gate ended it, and otherwise a record tells its outcome. */
  ghost predicate Handed(env: Surroundings, limit: nat, keeper: Keeper, n: nat, iteration: nat, tool: Text, args: Args, e: Executed)
    requires keeper.Named()
  {
    var outcome := Called(keeper.w, keeper.tools, keeper.glob, keeper.policy, n, tool, args).outcome;
    && (e.Ceiling? <==> outcome.Failed? && outcome.failure.BudgetExceeded?)
    && (e.Done? ==> e.record.iteration == iteration && e.record.tool == tool && e.record.args == args
                    && TellsOutcome(env, limit, outcome, e.record))
  }

  /** What a call of the model became, where `n` calls had reached the gate before. Arguments of another
      shape never reach it and are an error. */
  ghost predicate Became(env: Surroundings, limit: nat, keeper: Keeper, n: nat, iteration: nat, call: ToolCall, e: Executed)
    requires keeper.Named()
  {
    match call.args
    case NoArgs => Handed(env, limit, keeper, n, iteration, call.name, env.noArgs, e)
    case Mapping(args) => Handed(env, limit, keeper, n, iteration, call.name, args, e)
    case OtherShape(typeName) =>
      && e.Done? && e.record == Record(iteration, call.name, env.noArgs, Errored, e.record.detail, Nobody)
      && TellsError(env, call.name, Text("tool arguments must be a JSON object, got " + typeName.chars), e.record.detail)
  }

  /** A malformed call is an error that says what is wrong with it, or shows it if nothing does. */
  ghost predicate TellsInvalid(env: Surroundings, limit: nat, iteration: nat, call: BadCall, r: Record) {
    && r == Record(iteration, call.name, env.noArgs, Errored, r.detail, Nobody)
    && exists shown: Text ::
         && r.detail.chars == "INVALID_TOOL_CALL: " + shown.chars + "\nNothing ran. Send this call again with valid JSON arguments."
         && (call.error.chars != "" ==> ShowsUpTo(limit, call.error, shown))
         && (call.error.chars == "" ==> ShowsUpTo(limit, Text("arguments are not valid JSON: " + call.raw.chars), shown))
  }

  lemma OutcomeIsTold(env: Surroundings, limit: nat, iteration: nat, tool: Text, args: Args, outcome: Outcome)
    ensures var e := RecordFor(env, limit, iteration, tool, args, outcome);
      && (e.Ceiling? <==> outcome.Failed? && outcome.failure.BudgetExceeded?)
      && (e.Done? ==> e.record.iteration == iteration && e.record.tool == tool && e.record.args == args
                      && TellsOutcome(env, limit, outcome, e.record))
  {
  }

  lemma InvalidIsTold(env: Surroundings, limit: nat, iteration: nat, call: BadCall)
    ensures TellsInvalid(env, limit, iteration, call, Invalid(env, limit, iteration, call))
  {
    hide ShowsUpTo, Truncated;
    var error := if call.error.chars != "" then call.error else Prefixed("arguments are not valid JSON: ", call.raw);
    TruncatedShows(limit, error);
  }

  lemma TruncatedShows(limit: nat, text: Text)
    ensures ShowsUpTo(limit, text, Truncated(limit, text))
  {
    hide Digits;
  }

  /** How many of these calls reach the gate. */
  function GateCalls(calls: seq<ToolCall>): nat {
    if calls == [] then 0
    else GateCalls(calls[..|calls| - 1]) + if calls[|calls| - 1].args.OtherShape? then 0 else 1
  }

  /** The records are what these calls became, in order. */
  ghost predicate Executions(env: Surroundings, limit: nat, keeper: Keeper, n: nat, iteration: nat,
                             calls: seq<ToolCall>, records: seq<Record>)
    requires keeper.Named()
  {
    |records| <= |calls| && forall k :: 0 <= k < |records| ==>
      Became(env, limit, keeper, n + GateCalls(calls[..k]), iteration, calls[k], Done(records[k]))
  }

  /** The k-th call raised the run's ceiling. */
  ghost predicate HitsTheCeiling(env: Surroundings, limit: nat, keeper: Keeper, n: nat, iteration: nat, calls: seq<ToolCall>, k: nat)
    requires keeper.Named()
  {
    k < |calls| && Became(env, limit, keeper, n + GateCalls(calls[..k]), iteration, calls[k], Ceiling)
  }

  ghost predicate TurnExecuted(env: Surroundings, limit: nat, keeper: Keeper, n: nat, turn: Turn, iteration: nat)
    requires keeper.Named()
  {
    && |turn.records| == |turn.reply.calls| + |turn.reply.invalid|
    && Executions(env, limit, keeper, n, iteration, turn.reply.calls, turn.records[..|turn.reply.calls|])
    && forall k :: 0 <= k < |turn.reply.invalid| ==>
         TellsInvalid(env, limit, iteration, turn.reply.invalid[k], turn.records[|turn.reply.calls| + k])
  }

  function CallsMade(turns: seq<Turn>): nat {
    if turns == [] then 0 else CallsMade(turns[..|turns| - 1]) + GateCalls(turns[|turns| - 1].reply.calls)
  }

  /** Every record of the run is what its call became at the gate, counting from the n-th call. */
  ghost predicate AllExecuted(env: Surroundings, limit: nat, keeper: Keeper, n: nat, turns: seq<Turn>)
    requires keeper.Named()
  {
    forall t: nat :: t < |turns| ==> ExecutedAt(env, limit, keeper, n, turns, t)
  }

  ghost predicate ExecutedAt(env: Surroundings, limit: nat, keeper: Keeper, n: nat, turns: seq<Turn>, t: nat)
    requires keeper.Named() && t < |turns|
  {
    TurnExecuted(env, limit, keeper, n + CallsMade(turns[..t]), turns[t], t + 1)
  }

  lemma OneMoreExecution(env: Surroundings, limit: nat, keeper: Keeper, n: nat, iteration: nat,
                         calls: seq<ToolCall>, records: seq<Record>, r: Record)
    requires keeper.Named() && Executions(env, limit, keeper, n, iteration, calls, records) && |records| < |calls|
    requires Became(env, limit, keeper, n + GateCalls(calls[..|records|]), iteration, calls[|records|], Done(r))
    ensures Executions(env, limit, keeper, n, iteration, calls, records + [r])
  {
    hide Became, GateCalls;
  }

  lemma NextGateCall(calls: seq<ToolCall>, k: nat)
    requires k < |calls|
    ensures GateCalls(calls[..k + 1]) == GateCalls(calls[..k]) + if calls[k].args.OtherShape? then 0 else 1
  {
    assert calls[..k + 1][..k] == calls[..k];
  }

  lemma OneMoreTurnExecuted(env: Surroundings, limit: nat, keeper: Keeper, n: nat, turns: seq<Turn>, turn: Turn)
    requires keeper.Named() && AllExecuted(env, limit, keeper, n, turns)
    requires TurnExecuted(env, limit, keeper, n + CallsMade(turns), turn, |turns| + 1)
    ensures AllExecuted(env, limit, keeper, n, turns + [turn])
  {
    hide ExecutedAt;
    forall t: nat | t < |turns| + 1 ensures ExecutedAt(env, limit, keeper, n, turns + [turn], t) {
      if t < |turns| {
        StillExecuted(env, limit, keeper, n, turns, turn, t);
      } else {
        LastExecuted(env, limit, keeper, n, turns, turn);
      }
    }
  }

  lemma StillExecuted(env: Surroundings, limit: nat, keeper: Keeper, n: nat, turns: seq<Turn>, turn: Turn, t: nat)
    requires keeper.Named() && t < |turns| && ExecutedAt(env, limit, keeper, n, turns, t)
    ensures ExecutedAt(env, limit, keeper, n, turns + [turn], t)
  {
    hide TurnExecuted, CallsMade;
    assert (turns + [turn])[..t] == turns[..t] && (turns + [turn])[t] == turns[t];
  }

  lemma LastExecuted(env: Surroundings, limit: nat, keeper: Keeper, n: nat, turns: seq<Turn>, turn: Turn)
    requires keeper.Named() && TurnExecuted(env, limit, keeper, n + CallsMade(turns), turn, |turns| + 1)
    ensures ExecutedAt(env, limit, keeper, n, turns + [turn], |turns|)
  {
    hide TurnExecuted, CallsMade;
    assert (turns + [turn])[..|turns|] == turns && (turns + [turn])[|turns|] == turn;
  }

  lemma TurnAddsCalls(turns: seq<Turn>, turn: Turn)
    ensures CallsMade(turns + [turn]) == CallsMade(turns) + GateCalls(turn.reply.calls)
  {
    assert (turns + [turn])[..|turns|] == turns;
  }

  // ---- What a run promises -------------------------------------------------------------

  /** The turns of a run: each fully answered, and numbered from one. */
  ghost predicate AllAnswered(turns: seq<Turn>) {
    forall t :: 0 <= t < |turns| ==> Answered(turns[t], t + 1) && turns[t].reply.AsksForTools()
  }

  /** The model calls of a run that were not followed by tool calls. */
  function CallsWithoutTools(reason: StopReason): nat {
    if reason == TargetMet || reason == ModelError then 1 else 0
  }

  function RepliesOf(turns: seq<Turn>): seq<Reply> {
    seq(|turns|, t requires 0 <= t < |turns| => turns[t].reply)
  }

  /** How the result accounts for the turns and, if the run met its target, the last reply. */
  ghost predicate Accounts(env: Surroundings, maxIterations: nat, maxStalled: int, turns: seq<Turn>, last: Option<Reply>, r: AgentResult) {
    && r.records == RecordsOf(turns) && RecordedInOrder(turns, r.records)
    && r.iterations == |turns| + CallsWithoutTools(r.reason) && r.iterations <= maxIterations
    && WentOn(env.dump, turns, maxStalled)
    && (r.reason == NoProgress <==> turns != [] && Stalled(env.dump, turns) >= maxStalled)
    && (r.reason == TargetMet <==> last.Some?) && (last.Some? ==> !last.value.AsksForTools())
    && (r.reason == MaxIterations ==> r.iterations == maxIterations)
    && (forall k :: 0 <= k < r.iterations ==> !env.exceeded(k))
    && (r.reason == BudgetExhausted ==> env.exceeded(r.iterations))
    && (r.reason == TargetMet ==> SaidLast(RepliesOf(turns) + [last.value], r.output) && r.partialOutput.chars == "")
    && (r.reason != TargetMet ==> r.output.chars == "" && SaidLast(RepliesOf(turns), r.partialOutput))
  }

  /** Each turn but the last was followed by another model call before the run had stalled for `s`, and so
      was the last turn if a model call came after it. */
  ghost predicate KeptGoing(dump: Dump, turns: seq<Turn>, s: int, asked: nat) {
    && WentOn(dump, turns, s) && asked <= |turns| + 1
    && (asked > |turns| ==> turns == [] || Stalled(dump, turns) < s)
  }

  /** However large the iteration cap, and whichever way the run ends: at most (k + 1) * s model calls,
      where k counts the distinct successful outcomes of its turns and s is the stall limit. */
  lemma CallBound(dump: Dump, s: int, turns: seq<Turn>, asked: nat, outcomes: set<OutcomeKey>)
    requires s >= 1 && KeptGoing(dump, turns, s, asked) && OkKeys(dump, RecordsOf(turns)) <= outcomes
    ensures asked <= (|outcomes| + 1) * s
  {
    KeysAreRecorded(dump, turns);
    TurnBound(dump, turns, s, outcomes);
    StallsOneByOne(dump, turns, s);
    Distribute(|outcomes|, s);
  }

  /** As many model calls as the run's own outcomes allow. */
  ghost predicate CallsBounded(dump: Dump, turns: seq<Turn>, s: int, asked: nat) {
    s >= 1 ==> asked <= (|OkKeys(dump, RecordsOf(turns))| + 1) * s
  }

  lemma CallsAreBounded(dump: Dump, s: int, turns: seq<Turn>, asked: nat)
    requires KeptGoing(dump, turns, s, asked)
    ensures CallsBounded(dump, turns, s, asked)
  {
    if s >= 1 {
      CallBound(dump, s, turns, asked, OkKeys(dump, RecordsOf(turns)));
    }
  }

  lemma {:induction false} KeysAreRecorded(dump: Dump, turns: seq<Turn>)
    ensures Keys(dump, turns) == OkKeys(dump, RecordsOf(turns))
  {
    if turns != [] {
      var n := |turns| - 1;
      KeysAreRecorded(dump, turns[..n]);
      var before, added := RecordsOf(turns[..n]), turns[n].records;
      forall k ensures k in OkKeys(dump, before + added) <==> k in OkKeys(dump, before) || k in OkKeys(dump, added) {
        if k in OkKeys(dump, before) {
          var r :| r in before && r.status == Ok && KeyOf(dump, r) == k;
          assert r in before + added;
        }
        if k in OkKeys(dump, added) {
          var r :| r in added && r.status == Ok && KeyOf(dump, r) == k;
          assert r in before + added;
        }
      }
    }
  }

  /** The run stops for lack of progress exactly when it had at least `s` turns that asked for tools
and none of the last `s` of them had a fresh success. */
  lemma StopsForNoProgressIff(env: Surroundings, maxIterations: nat, s: nat, turns: seq<Turn>, last: Option<Reply>, r: AgentResult)
    requires s >= 1 && Accounts(env, maxIterations, s, turns, last, r)
    ensures r.reason == NoProgress
       <==> |turns| >= s && forall t :: |turns| - s <= t < |turns| ==> !FreshSuccess(env.dump, turns, t)
  {
    if |turns| >= s {
      StalledMeans(env.dump, turns, s);
    }
  }

  // ---- The node ------------------------------------------------------------------------

  /** One tool turn in progress: records and messages so far. */
  ghost predicate Answering(name: Text, env: Surroundings, reply: Reply, iteration: nat, records: seq<Record>, answers: seq<Message>) {
    && |records| == |answers| <= |reply.calls| + |reply.invalid|
    && (forall k :: 0 <= k < |records| ==>
          records[k].iteration == iteration && answers[k] == Answer(name, records[k], reply.CallIds()[k], iteration, k))
    && (forall k :: 0 <= k < |records| && k < |reply.calls| ==> records[k].tool == reply.calls[k].name)
    && (forall k :: |reply.calls| <= k < |records| ==>
          records[k].status == Errored && records[k].tool == reply.invalid[k - |reply.calls|].name)
  }

  lemma AnsweringOne(name: Text, env: Surroundings, reply: Reply, iteration: nat, records: seq<Record>, answers: seq<Message>, r: Record)
    requires Answering(name, env, reply, iteration, records, answers)
    requires |records| < |reply.calls| + |reply.invalid| && r.iteration == iteration
    requires |records| < |reply.calls| ==> r.tool == reply.calls[|records|].name
    requires |records| >= |reply.calls| ==> r.status == Errored && r.tool == reply.invalid[|records| - |reply.calls|].name
    ensures Answering(name, env, reply, iteration, records + [r],
                      answers + [Answer(name, r, reply.CallIds()[|records|], iteration, |records|)])
  {
    hide Answer;
  }

  /** A finished turn is answered, and its messages are its answers. */
  lemma TurnAnswered(name: Text, env: Surroundings, reply: Reply, iteration: nat, records: seq<Record>, answers: seq<Message>)
    requires Answering(name, env, reply, iteration, records, answers) && |records| == |reply.calls| + |reply.invalid|
    ensures Answered(Turn(reply, records), iteration) && answers == Answers(name, Turn(reply, records), iteration)
  {
    hide Answer, Answered, Answering;
    RecordsMatch(name, env, reply, iteration, records, answers);
    var expected := Answers(name, Turn(reply, records), iteration);
    assert |expected| == |answers|;
    forall k | 0 <= k < |answers| ensures answers[k] == expected[k] {
      AnswerAt(name, env, reply, iteration, records, answers, k);
    }
  }

  lemma AnswerAt(name: Text, env: Surroundings, reply: Reply, iteration: nat, records: seq<Record>, answers: seq<Message>, k: nat)
    requires Answering(name, env, reply, iteration, records, answers) && k < |records|
    ensures |answers| == |records| && k < |reply.CallIds()|
    ensures answers[k] == Answer(name, records[k], reply.CallIds()[k], iteration, k)
  {
    hide Answer;
  }

  lemma RecordsMatch(name: Text, env: Surroundings, reply: Reply, iteration: nat, records: seq<Record>, answers: seq<Message>)
    requires Answering(name, env, reply, iteration, records, answers) && |records| == |reply.calls| + |reply.invalid|
    ensures |answers| == |records| && Answered(Turn(reply, records), iteration)
  {
    hide Answer;
    var turn := Turn(reply, records);
    forall k | 0 <= k < |reply.invalid|
      ensures turn.records[|reply.calls| + k].tool == reply.invalid[k].name && turn.records[|reply.calls| + k].status == Errored
    {
      var n := |reply.calls| + k;
      assert records[n].tool == reply.invalid[n - |reply.calls|].name;
    }
  }

  /** Some outcome among these records has not been seen before. */
  ghost predicate BringsNew(dump: Dump, records: seq<Record>, seen: set<OutcomeKey>) {
    exists k :: k in OkKeys(dump, records) && k !in seen
  }

  lemma OneMoreKey(dump: Dump, records: seq<Record>, r: Record)
    ensures OkKeys(dump, records + [r]) == OkKeys(dump, records) + if r.status == Ok then {KeyOf(dump, r)} else {}
  {
    forall k ensures k in OkKeys(dump, records + [r])
      <==> k in OkKeys(dump, records) || (r.status == Ok && k == KeyOf(dump, r))
    {
      if k in OkKeys(dump, records) {
        var q :| q in records && q.status == Ok && KeyOf(dump, q) == k;
        assert q in records + [r];
      }
      if r.status == Ok && k == KeyOf(dump, r) {
        assert r in records + [r];
      }
    }
  }

  // ---- The loop's state ----------------------------------------------------------------

  /** What stays fixed during a run; `before` counts the calls the gate had seen when it began. */
  datatype Setup = Setup(name: Text, env: Surroundings, limit: nat, keeper: Keeper, before: nat,
                         maxIterations: nat, maxStalled: int, opening: seq<Message>)

  /** The turns completed so far, the transcripts the model was given, and the loop's own variables as the
      last completed turn left them. */
  datatype LoopState = LoopState(turns: seq<Turn>, asked: seq<seq<Message>>, messages: seq<Message>, records: seq<Record>,
                                 seen: set<OutcomeKey>, stalled: nat, said: Text)

  /** How the loop was left; `last` is the reply that asked for no tools. */
  datatype LoopExit = LoopExit(ceiling: bool, reason: StopReason, iterations: nat, output: Text, last: Option<Reply>)

  /** The loop's variables say what the turns say. */
  ghost predicate Held(u: Setup, v: LoopState) {
    && AllAnswered(v.turns) && v.messages == Transcript(u.name, u.opening, v.turns)
    && v.records == RecordsOf(v.turns) && v.seen == Keys(u.env.dump, v.turns)
    && v.stalled == Stalled(u.env.dump, v.turns) && v.said == LastText(RepliesOf(v.turns))
    && WentOn(u.env.dump, v.turns, u.maxStalled) && forall k :: 0 <= k < |v.turns| ==> !u.env.exceeded(k)
  }

  /** The k-th transcript the model was given is that of the turns before it. */
  ghost predicate WasAsked(name: Text, env: Surroundings, opening: seq<Message>, turns: seq<Turn>, asked: seq<seq<Message>>) {
    && AllAnswered(turns) && |turns| <= |asked| <= |turns| + 1
    && (forall k :: 0 <= k < |asked| ==> asked[k] == Transcript(name, opening, turns[..k]))
    && (forall t :: 0 <= t < |turns| ==> env.model(t + 1, asked[t]) == Says(turns[t].reply))
  }

  /** The model was first given the opening, and after each turn what it had been given, followed by that
      turn; its replies are those of the turns, then the one that asked for no tools. */
  ghost predicate Conversation(name: Text, env: Surroundings, opening: seq<Message>, turns: seq<Turn>,
                               asked: seq<seq<Message>>, last: Option<Reply>) {
    && WasAsked(name, env, opening, turns, asked)
    && (asked != [] ==> asked[0] == opening)
    && (forall t: nat :: t + 1 < |asked| ==> FollowedBy(name, asked[t], turns[t], t + 1, asked[t + 1]))
    && (last.Some? ==> |asked| == |turns| + 1 && env.model(|turns| + 1, asked[|turns|]) == Says(last.value))
  }

  /** Everything the loop keeps from turn to turn. */
  ghost predicate LoopKeeps(u: Setup, v: LoopState) {
    && u.keeper.Named() && Held(u, v) && WasAsked(u.name, u.env, u.opening, v.turns, v.asked)
    && AllExecuted(u.env, u.limit, u.keeper, u.before, v.turns)
  }

  /** Why and how the loop was left: by the run's ceiling, while it had not stalled, or for its reason. */
  ghost predicate Leaves(u: Setup, v: LoopState, x: LoopExit) {
    if x.ceiling then x.last.None? && |v.asked| == |v.turns| + 1 && (v.turns != [] ==> v.stalled < u.maxStalled)
    else
      && |v.asked| == x.iterations == |v.turns| + CallsWithoutTools(x.reason) <= u.maxIterations
      && (x.reason == NoProgress <==> v.turns != [] && v.stalled >= u.maxStalled)
      && (x.reason == MaxIterations ==> x.iterations == u.maxIterations)
      && (x.reason == BudgetExhausted ==> u.env.exceeded(|v.turns|))
      && (x.reason == TargetMet || x.reason == ModelError ==> !u.env.exceeded(|v.turns|))
      && (x.reason == TargetMet <==> x.last.Some?)
      && (x.last.Some? ==> !x.last.value.AsksForTools()
                           && u.env.model(|v.turns| + 1, v.asked[|v.turns|]) == Says(x.last.value))
      && x.output == if x.last.Some? && x.last.value.text.chars != "" then x.last.value.text else v.said
  }

  /** The state one tool turn later. */
  ghost function NextState(dump: Dump, v: LoopState, turn: Turn, answers: seq<Message>): LoopState {
    var progressed := BringsNew(dump, turn.records, v.seen);
    LoopState(v.turns + [turn], v.asked, v.messages + [Assistant(turn.reply)] + answers, v.records + turn.records,
              v.seen + OkKeys(dump, turn.records), if progressed then 0 else v.stalled + 1,
              if turn.reply.text.chars != "" then turn.reply.text else v.said)
  }

  class AgentNode {
    const name: Text
    const systemPrompt: Text
    const maxIterations: nat
    const maxStalled: int
    const limit: nat
    const env: Surroundings
    const harness: Harness

    constructor (name: Text, systemPrompt: Text, maxIterations: nat, maxStalled: int, limit: nat, env: Surroundings, harness: Harness)
      requires maxIterations >= 1
      ensures this.name == name && this.systemPrompt == systemPrompt && this.maxIterations == maxIterations
      ensures this.maxStalled == maxStalled && this.limit == limit && this.env == env && this.harness == harness
    {
      this.name, this.systemPrompt, this.maxIterations, this.maxStalled := name, systemPrompt, maxIterations, maxStalled;
      this.limit, this.env, this.harness := limit, env, harness;
    }

    ghost function TheKeeper(): Keeper
      reads harness.registry
    {
      Keeper(harness.w, harness.registry.tools, harness.glob, harness.policy)
    }

    lemma KeeperNamesTools()
      requires harness.Valid()
      ensures TheKeeper().Named()
    {
    }

    /** One call: arguments of another shape are an error of the node's own, all others go to the gate. */
    method Execute(iteration: nat, call: ToolCall) returns (r: Executed)
      requires harness.Valid() && TheKeeper().Named()
      modifies harness
      ensures harness.Valid() && old(harness.invocations) <= harness.invocations
      ensures Became(env, limit, TheKeeper(), old(harness.calls), iteration, call, r)
      ensures harness.calls == old(harness.calls) + if call.args.OtherShape? then 0 else 1
      ensures r.Done? ==> r.record.iteration == iteration && r.record.tool == call.name
      ensures call.args.OtherShape? ==> harness.invocations == old(harness.invocations)
      ensures r.Done? && r.record.status == Ok ==> exists i ::
        harness.invocations == old(harness.invocations) + [i] && i.spec.name == call.name
    {
      hide Harness.Valid, TellsOutcome, RecordFor;
      if call.args.OtherShape? {
        var message := Prefixed("tool arguments must be a JSON object, got ", call.args.typeName);
        r := Done(Record(iteration, call.name, env.noArgs, Errored, ErrorDetail(env, call.name, message), Nobody));
      } else {
        var args := if call.args.Mapping? then call.args.args else env.noArgs;
        var outcome := harness.Call(call.name, args);
        OnlyOpenGatesRun(harness.w, harness.registry.tools, harness.glob, harness.policy, old(harness.calls), call.name, args);
        OutcomeIsTold(env, limit, iteration, call.name, args, outcome);
        r := RecordFor(env, limit, iteration, call.name, args, outcome);
      }
    }

    /** Answer the well-formed calls in order; note whether any brought something new. */
    method AnswerCalls(reply: Reply, iteration: nat, seen0: set<OutcomeKey>)
      returns (records: seq<Record>, answers: seq<Message>, seen: set<OutcomeKey>, progressed: bool, ceiling: bool)
      requires harness.Valid() && TheKeeper().Named()
      modifies harness
      ensures harness.Valid() && old(harness.invocations) <= harness.invocations
      ensures Executions(env, limit, TheKeeper(), old(harness.calls), iteration, reply.calls, records)
      ensures ceiling ==> HitsTheCeiling(env, limit, TheKeeper(), old(harness.calls), iteration, reply.calls, |records|)
      ensures !ceiling ==> harness.calls == old(harness.calls) + GateCalls(reply.calls)
      ensures !ceiling ==> |records| == |reply.calls| && Answering(name, env, reply, iteration, records, answers)
      ensures seen == seen0 + OkKeys(env.dump, records)
      ensures progressed <==> BringsNew(env.dump, records, seen0)
    {
      hide Harness.Valid, Became, GateCalls, Executions, Answering, OkKeys;
      records, answers, seen, progressed, ceiling := [], [], seen0, false, false;
      NothingAnswered(name, env, reply, iteration);
      NothingExecuted(env, limit, TheKeeper(), harness.calls, iteration, reply.calls);
      for index := 0 to |reply.calls|
        invariant harness.Valid() && old(harness.invocations) <= harness.invocations
        invariant |records| == index && Answering(name, env, reply, iteration, records, answers)
        invariant Executions(env, limit, TheKeeper(), old(harness.calls), iteration, reply.calls, records)
        invariant harness.calls == old(harness.calls) + GateCalls(reply.calls[..index])
        invariant seen == seen0 + OkKeys(env.dump, records)
        invariant progressed <==> BringsNew(env.dump, records, seen0)
      {
        var executed := Execute(iteration, reply.calls[index]);
        NextGateCall(reply.calls, index);
        if executed.Ceiling? {
          ceiling := true;
          return;
        }
        var record := executed.record;
        AnsweringOne(name, env, reply, iteration, records, answers, record);
        OneMoreExecution(env, limit, TheKeeper(), old(harness.calls), iteration, reply.calls, records, record);
        OneMoreKey(env.dump, records, record);
        records := records + [record];
        answers := answers + [Answer(name, record, reply.CallIds()[index], iteration, index)];
        if record.status == Ok {
          var key := KeyOf(env.dump, record);
          progressed := progressed || key !in seen;
          seen := seen + {key};
        }
      }
      assert reply.calls[..|reply.calls|] == reply.calls;
    }

    /** Hand back the parse error for each malformed call: nothing runs, and it is not progress. */
    method AnswerInvalid(reply: Reply, iteration: nat, records0: seq<Record>, answers0: seq<Message>)
      returns (records: seq<Record>, answers: seq<Message>)
      requires |records0| == |reply.calls| && Answering(name, env, reply, iteration, records0, answers0)
      ensures |records| == |reply.calls| + |reply.invalid| && Answering(name, env, reply, iteration, records, answers)
      ensures records[..|reply.calls|] == records0
      ensures forall k :: 0 <= k < |reply.invalid| ==>
        TellsInvalid(env, limit, iteration, reply.invalid[k], records[|reply.calls| + k])
      ensures OkKeys(env.dump, records) == OkKeys(env.dump, records0)
    {
      hide Answering, OkKeys, TellsInvalid;
      records, answers := records0, answers0;
      for k := 0 to |reply.invalid|
        invariant |records| == |reply.calls| + k && Answering(name, env, reply, iteration, records, answers)
        invariant records[..|reply.calls|] == records0
        invariant forall i :: 0 <= i < k ==> TellsInvalid(env, limit, iteration, reply.invalid[i], records[|reply.calls| + i])
        invariant OkKeys(env.dump, records) == OkKeys(env.dump, records0)
      {
        var record := Invalid(env, limit, iteration, reply.invalid[k]);
        InvalidIsTold(env, limit, iteration, reply.invalid[k]);
        AnsweringOne(name, env, reply, iteration, records, answers, record);
        OneMoreKey(env.dump, records, record);
        records := records + [record];
        answers := answers + [Answer(name, record, reply.CallIds()[|reply.calls| + k], iteration, |reply.calls| + k)];
      }
    }

    /** One tool turn: every call answered, malformed ones last. */
    method TakeTurn(reply: Reply, iteration: nat, seen0: set<OutcomeKey>)
      returns (records: seq<Record>, answers: seq<Message>, seen: set<OutcomeKey>, progressed: bool, ceiling: bool)
      requires harness.Valid() && TheKeeper().Named()
      modifies harness
      ensures harness.Valid() && old(harness.invocations) <= harness.invocations
      ensures !ceiling ==> TurnExecuted(env, limit, TheKeeper(), old(harness.calls), Turn(reply, records), iteration)
      ensures !ceiling ==> harness.calls == old(harness.calls) + GateCalls(reply.calls)
      ensures !ceiling ==> Answering(name, env, reply, iteration, records, answers)
      ensures seen == seen0 + OkKeys(env.dump, records)
      ensures progressed <==> BringsNew(env.dump, records, seen0)
    {
      hide Harness.Valid, Executions, Answering, OkKeys, GateCalls, TurnExecuted, HitsTheCeiling;
      records, answers, seen, progressed, ceiling := AnswerCalls(reply, iteration, seen0);
      if !ceiling {
        ghost var wellFormed := records;
        records, answers := AnswerInvalid(reply, iteration, records, answers);
        TurnIsExecuted(env, limit, TheKeeper(), old(harness.calls), reply, iteration, wellFormed, records);
      }
    }

    ghost function TheSetup(opening: seq<Message>): Setup
      reads harness, harness.registry
    {
      Setup(name, env, limit, TheKeeper(), harness.calls, maxIterations, maxStalled, opening)
    }

    lemma SetupIs(opening: seq<Message>)
      ensures TheSetup(opening) == Setup(name, env, limit, TheKeeper(), harness.calls, maxIterations, maxStalled, opening)
    {
    }

    /** The turn in which the model asked for tools, and what the loop keeps of it. */
    method LaterTurn(ghost u: Setup, ghost v: LoopState, reply: Reply, iteration: nat, seen0: set<OutcomeKey>, stalled0: nat)
      returns (found: seq<Record>, answers: seq<Message>, seen: set<OutcomeKey>, stalled: nat, hit: bool)
      requires harness.Valid() && harness.calls == u.before + CallsMade(v.turns)
      requires u.name == name && u.env == env && u.limit == limit && u.keeper == TheKeeper()
      requires LoopKeeps(u, v) && iteration == |v.asked| == |v.turns| + 1 && v.seen == seen0 && v.stalled == stalled0
      requires env.model(|v.turns| + 1, v.asked[|v.turns|]) == Says(reply) && reply.AsksForTools()
      requires !env.exceeded(|v.turns|) && (v.turns != [] ==> v.stalled < u.maxStalled)
      modifies harness
      ensures harness.Valid() && old(harness.invocations) <= harness.invocations
      ensures !hit ==> harness.calls == u.before + CallsMade(v.turns + [Turn(reply, found)])
      ensures !hit ==> LoopKeeps(u, LoopState(v.turns + [Turn(reply, found)], v.asked, v.messages + [Assistant(reply)] + answers,
                         v.records + found, seen, stalled, if reply.text.chars != "" then reply.text else v.said))
    {
      hide *;
      KeeperNamesTools();
      var progressed;
      found, answers, seen, progressed, hit := TakeTurn(reply, iteration, seen0);
      stalled := if progressed then 0 else stalled0 + 1;
      if !hit {
        ghost var turn := Turn(reply, found);
        assert TheKeeper() == u.keeper;
        assert TurnExecuted(u.env, u.limit, u.keeper, u.before + CallsMade(v.turns), turn, |v.turns| + 1);
        assert Answering(u.name, u.env, turn.reply, |v.turns| + 1, turn.records, answers);
        AfterTurn(u, v, turn, answers);
        NextStateIs(env.dump, v, turn, answers, progressed);
      }
    }

    /** The loop, until a reason to stop or the run's ceiling. */
    method Loop(opening: seq<Message>) returns (exit: LoopExit, records: seq<Record>, ghost end: LoopState)
      requires harness.Valid()
      modifies harness
      ensures harness.Valid() && old(harness.invocations) <= harness.invocations
      ensures LoopKeeps(old(TheSetup(opening)), end) && Leaves(old(TheSetup(opening)), end, exit) && end.records == records
    {
      hide *;
      KeeperNamesTools();
      ghost var u := TheSetup(opening);
      SetupIs(opening);
      var stalled: nat, iterations: nat := 0, 0;
      var messages, seen, output := opening, {}, Text("");
      records := [];
      end := LoopState([], [], messages, records, seen, stalled, output);
      NothingYet(u);
      while true
        invariant harness.Valid() && old(harness.invocations) <= harness.invocations
        invariant TheKeeper() == u.keeper
        invariant end == LoopState(end.turns, end.asked, messages, records, seen, stalled, output)
        invariant LoopKeeps(u, end) && iterations == |end.turns| == |end.asked| <= maxIterations
        invariant iterations > 0 ==> stalled < maxStalled
        invariant harness.calls == u.before + CallsMade(end.turns)
        decreases maxIterations - iterations
      {
        if env.exceeded(iterations) {
          exit := LoopExit(false, BudgetExhausted, iterations, output, None);
          StoppedBetweenCalls(u, end, exit);
          return;
        }
        if iterations >= maxIterations {
          exit := LoopExit(false, MaxIterations, iterations, output, None);
          StoppedBetweenCalls(u, end, exit);
          return;
        }
        AskedOnceMore(u, end);
        iterations := iterations + 1;
        end := end.(asked := end.asked + [messages]);
        var answer := env.model(iterations, messages);
        if answer.HitsCeiling? {
          exit := LoopExit(true, ModelError, iterations, output, None);
          StoppedAtCall(u, end, exit);
          return;
        }
        if answer.Raises? {
          exit := LoopExit(false, ModelError, iterations, output, None);
          StoppedAtCall(u, end, exit);
          return;
        }
        var reply := answer.reply;
        messages := messages + [Assistant(reply)];
        output := if reply.text.chars != "" then reply.text else output;
        if !reply.AsksForTools() {
          exit := LoopExit(false, TargetMet, iterations, output, Some(reply));
          StoppedAtCall(u, end, exit);
          return;
        }
        ghost var before := end;
        var found, answers, hit;
        found, answers, seen, stalled, hit := LaterTurn(u, before, reply, iterations, seen, stalled);
        if hit {
          exit := LoopExit(true, ModelError, iterations, output, None);
          StoppedAtCall(u, end, exit);
          return;
        }
        records, messages := records + found, messages + answers;
        end := LoopState(before.turns + [Turn(reply, found)], before.asked, messages, records, seen, stalled, output);
        if stalled >= maxStalled {
          exit := LoopExit(false, NoProgress, iterations, output, None);
          StoppedBetweenCalls(u, end, exit);
          return;
        }
      }
    }

    /** Run to a result, whose reason says why the loop stopped. Only an answer goes into `output`. */
    method Run(prompt: Text)
      returns (r: RunResult, ghost turns: seq<Turn>, ghost last: Option<Reply>, ghost asked: seq<seq<Message>>)
      requires harness.Valid()
      modifies harness
      ensures harness.Valid() && old(harness.invocations) <= harness.invocations
      ensures Conversation(name, env, [System(systemPrompt), Human(prompt)], turns, asked, last)
      ensures TheKeeper().Named() && AllExecuted(env, limit, TheKeeper(), old(harness.calls), turns)
      ensures r.Finished? ==> Accounts(env, maxIterations, maxStalled, turns, last, r.result) && |asked| == r.result.iterations
      ensures r.CeilingRaised? ==> |asked| == |turns| + 1 && last.None?
      ensures KeptGoing(env.dump, turns, maxStalled, |asked|) && CallsBounded(env.dump, turns, maxStalled, |asked|)
    {
      KeeperNamesTools();
      hide Harness.Valid, Held, AllExecuted, Accounts, Leaves, KeptGoing, Conversation, CallsBounded;
      ghost var u := TheSetup([System(systemPrompt), Human(prompt)]);
      var exit, records;
      ghost var end;
      exit, records, end := Loop([System(systemPrompt), Human(prompt)]);
      turns, last, asked := end.turns, exit.last, end.asked;
      LoopConversation(u, end, exit);
      LoopKeptGoing(u, end, exit);
      CallsAreBounded(env.dump, maxStalled, turns, |asked|);
      if exit.ceiling {
        r := CeilingRaised;
      } else {
        var output, partial := exit.output, Text("");
        if exit.reason != TargetMet {
          partial, output := output, Text("");
        }
        r := Finished(AgentResult(output, exit.reason, exit.iterations, records, partial));
        Concluded(u, end, exit, r.result);
      }
    }
  }

  lemma NextStateIs(dump: Dump, v: LoopState, turn: Turn, answers: seq<Message>, progressed: bool)
    requires progressed <==> BringsNew(dump, turn.records, v.seen)
    ensures NextState(dump, v, turn, answers)
         == LoopState(v.turns + [turn], v.asked, v.messages + [Assistant(turn.reply)] + answers, v.records + turn.records,
                      v.seen + OkKeys(dump, turn.records), if progressed then 0 else v.stalled + 1,
                      if turn.reply.text.chars != "" then turn.reply.text else v.said)
  {
  }

  /** The loop stops between two model calls. */
  lemma StoppedBetweenCalls(u: Setup, v: LoopState, x: LoopExit)
    requires x.reason == BudgetExhausted || x.reason == MaxIterations || x.reason == NoProgress
    requires !x.ceiling && x.last.None? && x.output == v.said && |v.turns| == |v.asked| == x.iterations <= u.maxIterations
    requires x.reason == NoProgress <==> x.iterations > 0 && v.stalled >= u.maxStalled
    requires x.reason == BudgetExhausted ==> u.env.exceeded(x.iterations)
    requires x.reason == MaxIterations ==> x.iterations == u.maxIterations
    ensures Leaves(u, v, x)
  {
  }

  /** The loop stops at a model call or in the turn that follows it. */
  lemma StoppedAtCall(u: Setup, v: LoopState, x: LoopExit)
    requires x.ceiling || x.reason == ModelError || x.reason == TargetMet
    requires |v.turns| + 1 == |v.asked| == x.iterations <= u.maxIterations && !u.env.exceeded(|v.turns|)
    requires v.turns != [] ==> v.stalled < u.maxStalled
    requires x.last.Some? <==> !x.ceiling && x.reason == TargetMet
    requires x.last.Some? ==>
      !x.last.value.AsksForTools() && u.env.model(|v.turns| + 1, v.asked[|v.turns|]) == Says(x.last.value)
    requires !x.ceiling ==> x.output == if x.last.Some? && x.last.value.text.chars != "" then x.last.value.text else v.said
    ensures Leaves(u, v, x)
  {
  }

  lemma LoopKeptGoing(u: Setup, v: LoopState, x: LoopExit)
    requires Held(u, v) && Leaves(u, v, x)
    ensures KeptGoing(u.env.dump, v.turns, u.maxStalled, |v.asked|)
    ensures if x.ceiling then |v.asked| == |v.turns| + 1 && x.last.None? else |v.asked| == x.iterations
  {
    hide RecordsOf, Keys, Transcript, Answered, LastText, WentOn, Stalled;
  }

  lemma StartsWithOpening(u: Setup, v: LoopState)
    requires WasAsked(u.name, u.env, u.opening, v.turns, v.asked) && v.asked != []
    ensures v.asked[0] == u.opening
  {
  }

  lemma LoopConversation(u: Setup, v: LoopState, x: LoopExit)
    requires LoopKeeps(u, v) && Leaves(u, v, x)
    ensures Conversation(u.name, u.env, u.opening, v.turns, v.asked, x.last)
  {
    hide Transcript, FollowedBy, Held;
    if v.asked != [] {
      StartsWithOpening(u, v);
    }
    forall t: nat | t + 1 < |v.asked| ensures FollowedBy(u.name, v.asked[t], v.turns[t], t + 1, v.asked[t + 1]) {
      TranscriptFollows(u.name, u.opening, v.turns, t);
    }
  }

  lemma ExecutedInFull(env: Surroundings, limit: nat, keeper: Keeper, n: nat, turn: Turn, iteration: nat)
    requires keeper.Named() && TurnExecuted(env, limit, keeper, n, turn, iteration)
    ensures |turn.records| == |turn.reply.calls| + |turn.reply.invalid|
  {
  }

  lemma TurnIsExecuted(env: Surroundings, limit: nat, keeper: Keeper, n: nat, reply: Reply, iteration: nat,
                       wellFormed: seq<Record>, records: seq<Record>)
    requires keeper.Named() && Executions(env, limit, keeper, n, iteration, reply.calls, wellFormed)
    requires |records| == |reply.calls| + |reply.invalid| && records[..|reply.calls|] == wellFormed
    requires forall k :: 0 <= k < |reply.invalid| ==>
      TellsInvalid(env, limit, iteration, reply.invalid[k], records[|reply.calls| + k])
    ensures TurnExecuted(env, limit, keeper, n, Turn(reply, records), iteration)
  {
    hide Executions, TellsInvalid;
  }

  lemma AskedOnceMore(u: Setup, v: LoopState)
    requires LoopKeeps(u, v) && |v.asked| == |v.turns|
    ensures LoopKeeps(u, v.(asked := v.asked + [v.messages]))
  {
    hide AllExecuted, Keeper.Named, WentOn, Stalled, Keys, LastText, RecordsOf, Transcript, AllAnswered, RepliesOf;
    assert v.turns[..|v.turns|] == v.turns;
  }

  lemma TurnsAsked(u: Setup, v: LoopState, turn: Turn)
    requires WasAsked(u.name, u.env, u.opening, v.turns, v.asked) && Answered(turn, |v.turns| + 1) && turn.reply.AsksForTools()
    requires |v.asked| == |v.turns| + 1 && u.env.model(|v.turns| + 1, v.asked[|v.turns|]) == Says(turn.reply)
    ensures WasAsked(u.name, u.env, u.opening, v.turns + [turn], v.asked)
  {
    hide Transcript;
    var turns' := v.turns + [turn];
    forall k | 0 <= k < |v.asked| ensures v.asked[k] == Transcript(u.name, u.opening, turns'[..k]) {
      assert turns'[..k] == v.turns[..k];
    }
  }

  /** What one more turn adds to what a run has said, recorded and answered. */
  lemma TurnsGrow(name: Text, opening: seq<Message>, turns: seq<Turn>, turn: Turn)
    requires AllAnswered(turns) && Answered(turn, |turns| + 1) && turn.reply.AsksForTools()
    ensures AllAnswered(turns + [turn])
    ensures Transcript(name, opening, turns + [turn])
         == Transcript(name, opening, turns) + [Assistant(turn.reply)] + Answers(name, turn, |turns| + 1)
    ensures RecordsOf(turns + [turn]) == RecordsOf(turns) + turn.records
    ensures LastText(RepliesOf(turns + [turn])) == if turn.reply.text.chars != "" then turn.reply.text else LastText(RepliesOf(turns))
  {
    hide Answered, Answers;
    assert (turns + [turn])[..|turns|] == turns;
    assert RepliesOf(turns + [turn])[..|turns|] == RepliesOf(turns);
  }

  /** One tool turn, as the loop's variables see it and as the turns do. */
  lemma TurnTaken(u: Setup, v: LoopState, turn: Turn, answers: seq<Message>)
    requires Held(u, v) && !u.env.exceeded(|v.turns|) && (v.turns != [] ==> v.stalled < u.maxStalled)
    requires turn.reply.AsksForTools() && |turn.records| == |turn.reply.calls| + |turn.reply.invalid|
    requires Answering(u.name, u.env, turn.reply, |v.turns| + 1, turn.records, answers)
    ensures Answered(turn, |v.turns| + 1) && Held(u, NextState(u.env.dump, v, turn, answers))
  {
    hide OkKeys, Answering, Answered, Answers, WentOn, Stalled, Keys, AllAnswered, Transcript, RecordsOf, LastText, RepliesOf;
    TurnAnswered(u.name, u.env, turn.reply, |v.turns| + 1, turn.records, answers);
    assert Turn(turn.reply, turn.records) == turn;
    TurnsGrow(u.name, u.opening, v.turns, turn);
    TurnCounts(u.env.dump, u.maxStalled, v.turns, turn);
  }

  lemma TurnCounts(dump: Dump, s: int, turns: seq<Turn>, turn: Turn)
    requires WentOn(dump, turns, s) && (turns != [] ==> Stalled(dump, turns) < s)
    ensures WentOn(dump, turns + [turn], s)
    ensures Keys(dump, turns + [turn]) == Keys(dump, turns) + OkKeys(dump, turn.records)
    ensures Stalled(dump, turns + [turn]) == if BringsNew(dump, turn.records, Keys(dump, turns)) then 0 else Stalled(dump, turns) + 1
  {
    hide OkKeys;
    var turns' := turns + [turn];
    assert turns'[..|turns|] == turns;
    forall k | 0 < k < |turns'| ensures Stalled(dump, turns'[..k]) < s {
      assert k < |turns| ==> turns'[..k] == turns[..k];
    }
  }

  /** After a tool turn, everything the loop keeps holds of one turn more. */
  lemma AfterTurn(u: Setup, v: LoopState, turn: Turn, answers: seq<Message>)
    requires LoopKeeps(u, v) && |v.asked| == |v.turns| + 1
    requires u.env.model(|v.turns| + 1, v.asked[|v.turns|]) == Says(turn.reply)
    requires TurnExecuted(u.env, u.limit, u.keeper, u.before + CallsMade(v.turns), turn, |v.turns| + 1)
    requires !u.env.exceeded(|v.turns|) && (v.turns != [] ==> v.stalled < u.maxStalled) && turn.reply.AsksForTools()
    requires Answering(u.name, u.env, turn.reply, |v.turns| + 1, turn.records, answers)
    ensures LoopKeeps(u, NextState(u.env.dump, v, turn, answers))
    ensures CallsMade(v.turns + [turn]) == CallsMade(v.turns) + GateCalls(turn.reply.calls)
  {
    hide Held, WasAsked, AllExecuted, TurnExecuted, Answering, OkKeys, CallsMade, GateCalls, Answered, Keeper.Named;
    ExecutedInFull(u.env, u.limit, u.keeper, u.before + CallsMade(v.turns), turn, |v.turns| + 1);
    OneMoreTurnExecuted(u.env, u.limit, u.keeper, u.before, v.turns, turn);
    TurnAddsCalls(v.turns, turn);
    TurnTaken(u, v, turn, answers);
    TurnsAsked(u, v, turn);
  }

  /** The result accounts for the turns, whichever way the loop was left. */
  lemma Concluded(u: Setup, v: LoopState, x: LoopExit, r: AgentResult)
    requires Held(u, v) && Leaves(u, v, x) && !x.ceiling
    requires r.reason == x.reason && r.iterations == x.iterations && r.records == v.records
    requires x.output == (if x.last.Some? then r.output else r.partialOutput)
    requires if x.last.Some? then r.partialOutput.chars == "" else r.output.chars == ""
    ensures Accounts(u.env, u.maxIterations, u.maxStalled, v.turns, x.last, r)
  {
    hide Stalled, RecordsOf, Keys, Transcript, SaidLast, RecordedInOrder;
    RecordsByTurn(v.turns);
    LastTextWasSaidLast(RepliesOf(v.turns));
    if x.last.Some? {
      assert (RepliesOf(v.turns) + [x.last.value])[..|v.turns|] == RepliesOf(v.turns);
      LastTextWasSaidLast(RepliesOf(v.turns) + [x.last.value]);
    }
  }

  lemma NothingYet(u: Setup)
    requires u.keeper.Named()
    ensures LoopKeeps(u, LoopState([], [], u.opening, [], {}, 0, Text(""))) && CallsMade([]) == 0
  {
  }

  lemma NothingExecuted(env: Surroundings, limit: nat, keeper: Keeper, n: nat, iteration: nat, calls: seq<ToolCall>)
    requires keeper.Named()
    ensures Executions(env, limit, keeper, n, iteration, calls, []) && GateCalls(calls[..0]) == 0
  {
  }

  lemma NothingAnswered(name: Text, env: Surroundings, reply: Reply, iteration: nat)
    ensures Answering(name, env, reply, iteration, [], []) && OkKeys(env.dump, []) == {}
  {
  }
}

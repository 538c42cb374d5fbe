/** What an agent run leaves behind, turn by turn, and what follows from it (grapharc/harness/agent.py). */
module Turns {
  import opened Options
  import opened Seqs
  import opened Texts
  import opened Gate

  // ---- What the model sends ------------------------------------------------------------

  /** Model-supplied arguments: absent, a JSON object, or some other shape. */
  datatype RawArgs = NoArgs | Mapping(args: Args) | OtherShape(typeName: Text)

  datatype ToolCall = ToolCall(name: Text, args: RawArgs, id: Text)

  /** A call that could not be parsed; `raw` is how its arguments print. */
  datatype BadCall = BadCall(name: Text, error: Text, raw: Text, id: Text)

  datatype Reply = Reply(text: Text, calls: seq<ToolCall>, invalid: seq<BadCall>) {
    predicate AsksForTools() { calls != [] || invalid != [] }

    /** The ids of the calls, malformed ones last. */
    function CallIds(): (ids: seq<Text>)
      ensures |ids| == |calls| + |invalid|
    {
      seq(|calls|, k requires 0 <= k < |calls| => calls[k].id) + seq(|invalid|, k requires 0 <= k < |invalid| => invalid[k].id)
    }
  }

  // ---- What is recorded ----------------------------------------------------------------

  datatype Status = Ok | Denied | Errored

  datatype Refuser = Nobody | ThePolicy | TheSandbox

  datatype Record = Record(iteration: nat, tool: Text, args: Args, status: Status, detail: Text, refusedBy: Refuser)

  /** What counts as progress when new: tool, arguments and result. */
  datatype OutcomeKey = OutcomeKey(tool: Text, args: Text, detail: Text)

  type Dump = Args -> Text

  function KeyOf(dump: Dump, r: Record): OutcomeKey { OutcomeKey(r.tool, dump(r.args), r.detail) }

  /** A reply that asked for tools, with one record for each call. */
  datatype Turn = Turn(reply: Reply, records: seq<Record>)

  /** Each call of the turn has its record, and malformed calls never succeed. */
  ghost predicate Answered(turn: Turn, iteration: nat) {
    && |turn.records| == |turn.reply.calls| + |turn.reply.invalid|
    && (forall k :: 0 <= k < |turn.records| ==> turn.records[k].iteration == iteration)
    && (forall k :: 0 <= k < |turn.reply.calls| ==> turn.records[k].tool == turn.reply.calls[k].name)
    && (forall k :: 0 <= k < |turn.reply.invalid| ==>
          turn.records[|turn.reply.calls| + k].tool == turn.reply.invalid[k].name
          && turn.records[|turn.reply.calls| + k].status == Errored)
  }

  function RecordsOf(turns: seq<Turn>): seq<Record> {
    if turns == [] then [] else RecordsOf(turns[..|turns| - 1]) + turns[|turns| - 1].records
  }

  // ---- Progress ------------------------------------------------------------------------

  function OkKeys(dump: Dump, records: seq<Record>): set<OutcomeKey> {
    set r | r in records && r.status == Ok :: KeyOf(dump, r)
  }

  function Keys(dump: Dump, turns: seq<Turn>): set<OutcomeKey> {
    if turns == [] then {} else Keys(dump, turns[..|turns| - 1]) + OkKeys(dump, turns[|turns| - 1].records)
  }

  /** Turn `t` produced a successful outcome that no earlier turn had. */
  predicate AddsNew(dump: Dump, turns: seq<Turn>, t: nat)
    requires t < |turns|
  {
    exists k :: k in OkKeys(dump, turns[t].records) && k !in Keys(dump, turns[..t])
  }

  /** How many turns in a row, up to the last, added nothing. */
  function Stalled(dump: Dump, turns: seq<Turn>): (n: nat)
    ensures n <= |turns|
  {
    if turns == [] || AddsNew(dump, turns, |turns| - 1) then 0 else Stalled(dump, turns[..|turns| - 1]) + 1
  }

  function News(dump: Dump, turns: seq<Turn>): nat {
    if turns == [] then 0
    else News(dump, turns[..|turns| - 1]) + if AddsNew(dump, turns, |turns| - 1) then 1 else 0
  }

  /** Turn `t` had a success that differs in tool, in arguments or in result from every success of the
      turns before it. */
  ghost predicate FreshSuccess(dump: Dump, turns: seq<Turn>, t: nat)
    requires t < |turns|
  {
    exists r :: r in turns[t].records && r.status == Ok && forall u, q :: 0 <= u < t && q in turns[u].records && q.status == Ok ==>
      q.tool != r.tool || dump(q.args) != dump(r.args) || q.detail != r.detail
  }

  lemma {:induction false} KeysAreEarlier(dump: Dump, turns: seq<Turn>, k: OutcomeKey)
    ensures k in Keys(dump, turns) <==> exists u, q :: 0 <= u < |turns| && q in turns[u].records && q.status == Ok && KeyOf(dump, q) == k
  {
    hide KeyOf;
    if turns != [] {
      var n := |turns| - 1;
      KeysAreEarlier(dump, turns[..n], k);
      if k in Keys(dump, turns[..n]) {
        var u, q :| 0 <= u < n && q in turns[..n][u].records && q.status == Ok && KeyOf(dump, q) == k;
        assert turns[..n][u] == turns[u];
      }
      if u, q :| 0 <= u < |turns| && q in turns[u].records && q.status == Ok && KeyOf(dump, q) == k {
        assert u < n ==> turns[..n][u] == turns[u];
      }
    }
  }

  lemma AddsNewMeans(dump: Dump, turns: seq<Turn>, t: nat)
    requires t < |turns|
    ensures AddsNew(dump, turns, t) <==> FreshSuccess(dump, turns, t)
  {
    hide Keys;
    forall r | r in turns[t].records && r.status == Ok
      ensures KeyOf(dump, r) in OkKeys(dump, turns[t].records)
      ensures KeyOf(dump, r) in Keys(dump, turns[..t])
         <==> exists u, q :: 0 <= u < t && q in turns[u].records && q.status == Ok
                        && q.tool == r.tool && dump(q.args) == dump(r.args) && q.detail == r.detail
    {
      KeysAreEarlier(dump, turns[..t], KeyOf(dump, r));
      assert forall u :: 0 <= u < t ==> turns[..t][u] == turns[u];
    }
  }

  /** Turns have stalled for `n` exactly when none of the last `n` had a fresh success. */
  lemma StalledMeans(dump: Dump, turns: seq<Turn>, n: nat)
    requires n <= |turns|
    ensures Stalled(dump, turns) >= n <==> forall t :: |turns| - n <= t < |turns| ==> !FreshSuccess(dump, turns, t)
  {
    hide *;
    StalledFor(dump, turns, n);
    forall t: nat | t < |turns| ensures AddsNew(dump, turns, t) <==> FreshSuccess(dump, turns, t) {
      AddsNewMeans(dump, turns, t);
    }
  }

  lemma {:induction false} StalledFor(dump: Dump, turns: seq<Turn>, n: nat)
    requires n <= |turns|
    ensures Stalled(dump, turns) >= n <==> forall t :: |turns| - n <= t < |turns| ==> !AddsNew(dump, turns, t)
  {
    if turns != [] && n > 0 {
      var front := turns[..|turns| - 1];
      StalledFor(dump, front, n - 1);
      forall t | 0 <= t < |front| ensures AddsNew(dump, front, t) == AddsNew(dump, turns, t) {
        assert front[..t] == turns[..t];
      }
      assert AddsNew(dump, turns, |turns| - 1) ==> Stalled(dump, turns) == 0;
    }
  }

  lemma Bigger<T>(small: set<T>, large: set<T>, x: T)
    requires small <= large && x in large && x !in small
    ensures |large| >= |small| + 1
  {
    SubsetSize(small + {x}, large);
  }

  lemma {:induction false} EachNewsIsAKey(dump: Dump, turns: seq<Turn>)
    ensures News(dump, turns) <= |Keys(dump, turns)|
  {
    if turns != [] {
      var n := |turns| - 1;
      EachNewsIsAKey(dump, turns[..n]);
      SubsetSize(Keys(dump, turns[..n]), Keys(dump, turns));
      if AddsNew(dump, turns, n) {
        var k :| k in OkKeys(dump, turns[n].records) && k !in Keys(dump, turns[..n]);
        Bigger(Keys(dump, turns[..n]), Keys(dump, turns), k);
      }
    }
  }

  /** The run went on after each of its turns but perhaps the last: none of them had stalled for `s`. */
  ghost predicate WentOn(dump: Dump, turns: seq<Turn>, s: int) {
    forall k :: 0 < k < |turns| ==> Stalled(dump, turns[..k]) < s
  }

  lemma {:induction false} TurnsBetweenNews(dump: Dump, turns: seq<Turn>, s: int)
    requires s >= 1 && WentOn(dump, turns, s)
    ensures |turns| <= News(dump, turns) * s + Stalled(dump, turns)
  {
    if turns != [] {
      var n := |turns| - 1;
      var front := turns[..n];
      forall k | 0 < k < |front| ensures Stalled(dump, front[..k]) < s {
        assert front[..k] == turns[..k];
      }
      TurnsBetweenNews(dump, front, s);
      assert n > 0 ==> Stalled(dump, turns[..n]) < s;
      Distribute(News(dump, front), s);
    }
  }

  lemma Distribute(a: int, s: int)
    ensures (a + 1) * s == a * s + s
  {
  }

  /** With at most `most` distinct successful outcomes, at most (most + 1) * s turns ask for tools. */
  lemma TurnBound(dump: Dump, turns: seq<Turn>, s: int, outcomes: set<OutcomeKey>)
    requires s >= 1 && WentOn(dump, turns, s) && Keys(dump, turns) <= outcomes
    ensures |turns| <= |outcomes| * s + Stalled(dump, turns)
  {
    TurnsBetweenNews(dump, turns, s);
    EachNewsIsAKey(dump, turns);
    SubsetSize(Keys(dump, turns), outcomes);
    TimesIsMonotone(News(dump, turns), |outcomes|, s);
  }

  lemma TimesIsMonotone(a: int, b: int, s: int)
    requires a <= b && s >= 0
    ensures a * s <= b * s
  {
    assert (b - a) * s >= 0;
  }

  lemma {:induction false} StallsOneByOne(dump: Dump, turns: seq<Turn>, s: int)
    requires s >= 1 && WentOn(dump, turns, s)
    ensures Stalled(dump, turns) <= s
  {
    if turns != [] {
      assert |turns| > 1 ==> Stalled(dump, turns[..|turns| - 1]) < s;
    }
  }

  // ---- The transcript ------------------------------------------------------------------

  datatype Message =
    | System(text: Text)
    | Human(text: Text)
    | Assistant(reply: Reply)
    | ToolMessage(content: Text, callId: Text, tool: Option<Text>, success: bool)

  function Digits(n: nat): (s: string)
    ensures s != [] && forall k :: 0 <= k < |s| ==> s[k] != '-'
  {
    if n < 10 then [['0', '1', '2', '3', '4', '5', '6', '7', '8', '9'][n]]
    else Digits(n / 10) + [['0', '1', '2', '3', '4', '5', '6', '7', '8', '9'][n % 10]]
  }

  /** The id of a call that came without one. */
  function FallbackId(agent: Text, iteration: nat, index: nat): Text {
    Text(agent.chars + "-" + Digits(iteration) + "-" + Digits(index))
  }

  function IdFor(agent: Text, id: Text, iteration: nat, index: nat): Text {
    if id.chars != "" then id else FallbackId(agent, iteration, index)
  }

  function Answer(agent: Text, r: Record, id: Text, iteration: nat, index: nat): Message {
    ToolMessage(r.detail, IdFor(agent, id, iteration, index), if r.tool.chars != "" then Some(r.tool) else None, r.status == Ok)
  }

  /** One tool message for each call of the turn, in order, tied to the id it came under. */
  function Answers(agent: Text, turn: Turn, iteration: nat): seq<Message>
    requires |turn.records| <= |turn.reply.calls| + |turn.reply.invalid|
  {
    seq(|turn.records|, k requires 0 <= k < |turn.records| =>
      Answer(agent, turn.records[k], turn.reply.CallIds()[k], iteration, k))
  }

  /** What the model is shown after these turns: every assistant message followed by its answers. */
  function Transcript(agent: Text, opening: seq<Message>, turns: seq<Turn>): seq<Message>
    requires forall t :: 0 <= t < |turns| ==> |turns[t].records| <= |turns[t].reply.calls| + |turns[t].reply.invalid|
  {
    if turns == [] then opening
    else
      var n := |turns| - 1;
      Transcript(agent, opening, turns[..n]) + [Assistant(turns[n].reply)] + Answers(agent, turns[n], n + 1)
  }

  /** The message answers the call that came under this id: with its result, as a success if it was one,
      and under that id, or under one made of the agent, the turn and the place if there was none. */
  ghost predicate IsAnswer(agent: Text, r: Record, id: Text, iteration: nat, index: nat, m: Message) {
    && m.ToolMessage? && m.content == r.detail && (m.success <==> r.status == Ok)
    && m.tool == (if r.tool.chars == "" then None else Some(r.tool))
    && (id.chars != "" ==> m.callId == id)
    && (id.chars == "" ==> m.callId.chars == agent.chars + "-" + Digits(iteration) + "-" + Digits(index))
  }

  /** The transcript went on with what the model said in this turn and one answer to each of its calls,
      in their order, malformed ones last. */
  ghost predicate FollowedBy(agent: Text, before: seq<Message>, turn: Turn, iteration: nat, after: seq<Message>) {
    var n := |turn.reply.calls|;
    && |turn.records| == n + |turn.reply.invalid| && |after| == |before| + 1 + |turn.records|
    && after[..|before|] == before && after[|before|] == Assistant(turn.reply)
    && (forall k :: 0 <= k < n ==>
          IsAnswer(agent, turn.records[k], turn.reply.calls[k].id, iteration, k, after[|before| + 1 + k]))
    && (forall k :: n <= k < |turn.records| ==>
          IsAnswer(agent, turn.records[k], turn.reply.invalid[k - n].id, iteration, k, after[|before| + 1 + k]))
  }

  lemma TranscriptFollows(agent: Text, opening: seq<Message>, turns: seq<Turn>, t: nat)
    requires t < |turns| && forall i :: 0 <= i < |turns| ==> |turns[i].records| == |turns[i].reply.calls| + |turns[i].reply.invalid|
    ensures FollowedBy(agent, Transcript(agent, opening, turns[..t]), turns[t], t + 1, Transcript(agent, opening, turns[..t + 1]))
  {
    hide FollowedBy, Answers;
    assert turns[..t + 1][..t] == turns[..t];
    AnswersFollow(agent, Transcript(agent, opening, turns[..t]), turns[t], t + 1);
  }

  lemma AnswersFollow(agent: Text, before: seq<Message>, turn: Turn, iteration: nat)
    requires |turn.records| == |turn.reply.calls| + |turn.reply.invalid|
    ensures FollowedBy(agent, before, turn, iteration, before + [Assistant(turn.reply)] + Answers(agent, turn, iteration))
  {
    hide IsAnswer, Answers;
    AnswersAnswer(agent, turn, iteration);
    var answers := Answers(agent, turn, iteration);
    var after := before + [Assistant(turn.reply)] + answers;
    assert after[..|before|] == before;
    assert forall k :: 0 <= k < |answers| ==> after[|before| + 1 + k] == answers[k];
  }

  lemma AnswersAnswer(agent: Text, turn: Turn, iteration: nat)
    requires |turn.records| == |turn.reply.calls| + |turn.reply.invalid|
    ensures |Answers(agent, turn, iteration)| == |turn.records|
    ensures forall k :: 0 <= k < |turn.reply.calls| ==>
      IsAnswer(agent, turn.records[k], turn.reply.calls[k].id, iteration, k, Answers(agent, turn, iteration)[k])
    ensures forall k :: |turn.reply.calls| <= k < |turn.records| ==>
      IsAnswer(agent, turn.records[k], turn.reply.invalid[k - |turn.reply.calls|].id, iteration, k, Answers(agent, turn, iteration)[k])
  {
    hide IsAnswer, Answer;
    forall r, id, k ensures IsAnswer(agent, r, id, iteration, k, Answer(agent, r, id, iteration, k)) {
      OneAnswer(agent, r, id, iteration, k);
    }
  }

  lemma OneAnswer(agent: Text, r: Record, id: Text, iteration: nat, index: nat)
    ensures IsAnswer(agent, r, id, iteration, index, Answer(agent, r, id, iteration, index))
  {
    hide Digits;
  }

  /** The records carry the number of their turn: those that carry `t + 1` are the records of turn `t`,
      and none comes before one of an earlier turn. */
  ghost predicate RecordedInOrder(turns: seq<Turn>, records: seq<Record>) {
    && (forall t: nat :: t < |turns| ==> Filter(InTurn(t + 1), records) == turns[t].records)
    && (forall i, j :: 0 <= i < j < |records| ==> records[i].iteration <= records[j].iteration)
    && (forall r :: r in records ==> 1 <= r.iteration <= |turns|)
  }

  function InTurn(iteration: nat): Record -> bool { (r: Record) => r.iteration == iteration }

  lemma {:induction false} OneTurnsRecords(iteration: nat, n: nat, records: seq<Record>)
    requires forall r :: r in records ==> r.iteration == n
    ensures Filter(InTurn(iteration), records) == if iteration == n then records else []
  {
    if records != [] {
      var front := records[..|records| - 1];
      assert records == front + [records[|records| - 1]];
      OneTurnsRecords(iteration, n, front);
    }
  }

  lemma {:induction false} RecordsByTurn(turns: seq<Turn>)
    requires forall t :: 0 <= t < |turns| ==> forall r :: r in turns[t].records ==> r.iteration == t + 1
    ensures RecordedInOrder(turns, RecordsOf(turns))
  {
    if turns != [] {
      hide RecordedInOrder;
      var n := |turns| - 1;
      RecordsByTurn(turns[..n]);
      NextTurnsRecords(turns, RecordsOf(turns[..n]));
    }
  }

  lemma NextTurnsRecords(turns: seq<Turn>, before: seq<Record>)
    requires turns != [] && RecordedInOrder(turns[..|turns| - 1], before)
    requires forall r :: r in turns[|turns| - 1].records ==> r.iteration == |turns|
    ensures RecordedInOrder(turns, before + turns[|turns| - 1].records)
  {
    hide Filter;
    var n := |turns| - 1;
    var added := turns[n].records;
    forall t: nat | t < |turns| ensures Filter(InTurn(t + 1), before + added) == turns[t].records {
      FilterConcat(InTurn(t + 1), before, added);
      OneTurnsRecords(t + 1, n + 1, added);
      if t < n {
        assert turns[..n][t] == turns[t];
      } else {
        NoneInTurn(t + 1, before);
      }
    }
    LaterTurnsLast(before, added, n);
  }

  lemma LaterTurnsLast(before: seq<Record>, added: seq<Record>, n: nat)
    requires forall i, j :: 0 <= i < j < |before| ==> before[i].iteration <= before[j].iteration
    requires (forall r :: r in before ==> 1 <= r.iteration <= n) && forall r :: r in added ==> r.iteration == n + 1
    ensures var all := before + added;
      && (forall i, j :: 0 <= i < j < |all| ==> all[i].iteration <= all[j].iteration)
      && forall r :: r in all ==> 1 <= r.iteration <= n + 1
  {
    forall i, j | 0 <= i < j < |before + added| ensures (before + added)[i].iteration <= (before + added)[j].iteration {
      assert i < |before| ==> before[i] in before;
      assert j >= |before| ==> added[j - |before|] in added;
    }
  }

  lemma NoneInTurn(iteration: nat, records: seq<Record>)
    requires forall r :: r in records ==> r.iteration != iteration
    ensures Filter(InTurn(iteration), records) == []
  {
    assert forall r :: r !in Filter(InTurn(iteration), records);
  }

  /** The number that decimal digits write. */
  function Value10(s: string): nat {
    if s == [] || !('0' <= s[|s| - 1] <= '9') then 0 else 10 * Value10(s[..|s| - 1]) + (s[|s| - 1] as int - '0' as int)
  }

  lemma {:induction false} DigitsWrite(n: nat)
    ensures Value10(Digits(n)) == n && (n > 0 ==> Digits(n)[0] != '0')
  {
    if n >= 10 {
      DigitsWrite(n / 10);
      var s := Digits(n);
      assert s[..|s| - 1] == Digits(n / 10) && s[0] == Digits(n / 10)[0];
    } else {
      assert Digits(n)[..0] == [];
    }
  }

  lemma {:induction false} DigitsInjective(m: nat, n: nat)
    requires Digits(m) == Digits(n)
    ensures m == n
  {
    var a, b := Digits(m), Digits(n);
    if m >= 10 && n >= 10 {
      assert a[..|a| - 1] == Digits(m / 10) && b[..|b| - 1] == Digits(n / 10);
      DigitsInjective(m / 10, n / 10);
      assert a[|a| - 1] == b[|b| - 1];
    } else {
      assert m >= 10 ==> |a| >= 2;
      assert n >= 10 ==> |b| >= 2;
    }
  }

  lemma SplitAtDash(a: string, b: string, a': string, b': string)
    requires a + "-" + b == a' + "-" + b'
    requires (forall k :: 0 <= k < |a| ==> a[k] != '-') && (forall k :: 0 <= k < |a'| ==> a'[k] != '-')
    ensures a == a' && b == b'
  {
    var s := a + "-" + b;
    assert s[|a|] == '-' && s[|a'|] == '-';
    assert forall k :: 0 <= k < |a| ==> s[k] == a[k];
    assert forall k :: 0 <= k < |a'| ==> s[k] == a'[k];
    assert |a| == |a'|;
    assert s[..|a|] == a && s[..|a'|] == a' && s[|a| + 1..] == b && s[|a'| + 1..] == b';
  }

  /** Fallback ids never repeat within a run. */
  lemma FallbackIdsDistinct(agent: Text, i: nat, k: nat, i': nat, k': nat)
    requires FallbackId(agent, i, k) == FallbackId(agent, i', k')
    ensures i == i' && k == k'
  {
    var n := |agent.chars| + 1;
    var s, s' := FallbackId(agent, i, k).chars, FallbackId(agent, i', k').chars;
    assert s[n..] == Digits(i) + "-" + Digits(k) && s'[n..] == Digits(i') + "-" + Digits(k');
    SplitAtDash(Digits(i), Digits(k), Digits(i'), Digits(k'));
    DigitsInjective(i, i');
    DigitsInjective(k, k');
  }

  // ---- The answer ----------------------------------------------------------------------

  /** The last non-empty text of these replies. */
  function LastText(replies: seq<Reply>): Text {
    if replies == [] then Text("")
    else if replies[|replies| - 1].text.chars != "" then replies[|replies| - 1].text
    else LastText(replies[..|replies| - 1])
  }

  /** `text` is what was said last: the text of the last of these replies that has one, if any has. */
  ghost predicate SaidLast(replies: seq<Reply>, text: Text) {
    || (text.chars == "" && forall k :: 0 <= k < |replies| ==> replies[k].text.chars == "")
    || (exists k :: 0 <= k < |replies| && replies[k].text == text && text.chars != ""
               && forall j :: k < j < |replies| ==> replies[j].text.chars == "")
  }

  lemma {:induction false} LastTextWasSaidLast(replies: seq<Reply>)
    ensures SaidLast(replies, LastText(replies))
  {
    hide SaidLast;
    if replies == [] {
      NothingSaid();
    } else {
      var n := |replies| - 1;
      var front := replies[..n];
      LastTextWasSaidLast(front);
      SaidLastGrows(front, LastText(front), replies[n]);
      assert replies == front + [replies[n]];
    }
  }

  lemma NothingSaid()
    ensures SaidLast([], Text(""))
  {
  }

  lemma SaidLastGrows(replies: seq<Reply>, text: Text, next: Reply)
    requires SaidLast(replies, text)
    ensures SaidLast(replies + [next], if next.text.chars != "" then next.text else text)
  {
    var all, n := replies + [next], |replies|;
    assert all[n] == next && forall j :: 0 <= j < n ==> all[j] == replies[j];
    if next.text.chars == "" && text.chars != "" {
      var k :| 0 <= k < n && replies[k].text == text && forall j :: k < j < n ==> replies[j].text.chars == "";
      assert all[k].text == text;
    }
  }

  lemma {:induction false} LastTextIsEmptyIff(replies: seq<Reply>)
    ensures LastText(replies).chars == "" <==> forall k :: 0 <= k < |replies| ==> replies[k].text.chars == ""
  {
    if replies != [] {
      LastTextIsEmptyIff(replies[..|replies| - 1]);
    }
  }

  /** The answer of a run that met its target is the text of the reply that asked for no tool exactly
      when that reply says something or nothing was said before it: after an empty last reply, what was
      said mid-work is the answer. */
  lemma AnswerIsLastReplyIff(earlier: seq<Reply>, last: Reply)
    ensures LastText(earlier + [last]).chars == last.text.chars
       <==> last.text.chars != "" || forall k :: 0 <= k < |earlier| ==> earlier[k].text.chars == ""
  {
    assert (earlier + [last])[..|earlier|] == earlier;
    LastTextIsEmptyIff(earlier);
  }

  /** It does happen: what was said beside a tool call is the answer of a run whose last reply is empty. */
  lemma UtteranceBecomesAnswer(call: ToolCall)
    ensures var working, last := Reply(Text("Looking for it."), [call], []), Reply(Text(""), [], []);
      && working.AsksForTools() && !last.AsksForTools()
      && LastText([working] + [last]) == working.text != last.text
  {
    var working, last := Reply(Text("Looking for it."), [call], []), Reply(Text(""), [], []);
    assert ([working] + [last])[..1] == [working];
    assert LastText([working]) == working.text;
  }
}

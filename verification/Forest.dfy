/** Supersession is a forest ordered by a clock that never repeats (grapharc/memory/store.py). */
module Forest {
  import opened Options
  import opened Seqs
  import opened Sorting
  import opened Texts
  import opened Claims
  import opened ClaimLog
  import opened MemoryBackend
  import opened StoreAgreement

  // ---- The clock -----------------------------------------------------------------------

  /** `last` is the last stamp handed out, if any. */
  class Clock {
    var last: Option<Time>

    constructor ()
      ensures last == None
    {
      last := None;
    }

    /** The reading, or one microsecond past the last stamp where the clock has not moved on. */
    method Now(reading: Time) returns (stamp: Time)
      modifies this
      ensures stamp == NextTick(old(last), reading) && last == Some(stamp)
    {
      stamp := reading;
      if last.Some? && stamp <= last.value {
        stamp := last.value + 1;
      }
      last := Some(stamp);
    }
  }

  function NextTick(last: Option<Time>, reading: Time): (stamp: Time)
    ensures stamp >= reading && (last.Some? ==> stamp > last.value)
    ensures stamp == reading || (last.Some? && stamp == last.value + 1)
  {
    if last.Some? && reading <= last.value then last.value + 1 else reading
  }

  /** The last stamp handed out after `ticks`, on a clock that stood at `last`. */
  function Latest(last: Option<Time>, ticks: seq<Time>): Option<Time> {
    if ticks == [] then last else Some(ticks[|ticks| - 1])
  }

  /** The stamps a clock that stands at `last` hands out for a sequence of readings. */
  function Ticks(last: Option<Time>, readings: seq<Time>): (ticks: seq<Time>)
    ensures |ticks| == |readings|
  {
    if readings == [] then []
    else
      var before := Ticks(last, readings[..|readings| - 1]);
      before + [NextTick(Latest(last, before), readings[|readings| - 1])]
  }

  /** Strictly increasing, whatever the readings: even when the clock steps backwards. */
  lemma {:induction false} TicksIncrease(last: Option<Time>, readings: seq<Time>, i: nat, j: nat)
    requires i < j < |readings|
    ensures Ticks(last, readings)[i] < Ticks(last, readings)[j]
  {
    var n := |readings| - 1;
    if j < n {
      TicksIncrease(last, readings[..n], i, j);
    } else if i < n - 1 {
      TicksIncrease(last, readings[..n], i, n - 1);
    }
  }

  /** Each stamp is the latest reading so far or runs ahead of it, by at most one tick per call. */
  lemma {:induction false} TicksStayClose(last: Option<Time>, readings: seq<Time>, high: Time)
    requires readings != [] && forall k :: 0 <= k < |readings| ==> readings[k] <= high
    requires last.Some? ==> last.value < high
    ensures readings[|readings| - 1] <= Ticks(last, readings)[|readings| - 1] < high + |readings|
  {
    var n := |readings| - 1;
    if n > 0 {
      TicksStayClose(last, readings[..n], high);
    }
  }

  lemma {:induction false} TicksOfPrefix(last: Option<Time>, readings: seq<Time>, k: nat)
    requires k <= |readings|
    ensures Ticks(last, readings[..k]) == Ticks(last, readings)[..k]
  {
    var n := |readings| - 1;
    if k == |readings| {
      assert readings[..k] == readings;
    } else {
      TicksOfPrefix(last, readings[..n], k);
      assert readings[..n][..k] == readings[..k];
    }
  }

  lemma NextTickIs(last: Option<Time>, readings: seq<Time>, k: nat)
    requires k < |readings|
    ensures NextTick(Latest(last, Ticks(last, readings)[..k]), readings[k]) == Ticks(last, readings)[k]
    ensures Latest(last, Ticks(last, readings)[..k + 1]) == Some(Ticks(last, readings)[k])
  {
    TicksOfPrefix(last, readings, k + 1);
    TicksOfPrefix(last, readings, k);
    assert readings[..k + 1][..k] == readings[..k];
  }

  // ---- Chains that end at a current claim ----------------------------------------------

  /** Following corrections from the claim with this id ends at a current claim after exactly `n` steps,
      without meeting an id in `avoid`. */
  ghost predicate EndsIn(log: Log, i: Id, avoid: set<Id>, n: nat)
    decreases n
  {
    && i !in avoid && Get(log, i).Some?
    && if n == 0 then Get(log, i).value.IsCurrent()
       else !Get(log, i).value.IsCurrent() && EndsIn(log, Get(log, i).value.supersededBy.value, avoid, n - 1)
  }

  ghost predicate EndsCurrent(log: Log, i: Id, avoid: set<Id>) {
    exists n: nat :: EndsIn(log, i, avoid, n)
  }

  ghost predicate AllEndCurrent(log: Log) {
    DistinctIds(log) && forall i :: Get(log, i).Some? ==> EndsCurrent(log, i, {})
  }

  lemma {:induction false} EndsOnce(log: Log, i: Id, n: nat, m: nat)
    requires EndsIn(log, i, {}, n) && EndsIn(log, i, {}, m)
    ensures n == m
    decreases n
  {
    hide Get;
    if n > 0 && m > 0 {
      EndsOnce(log, Get(log, i).value.supersededBy.value, n - 1, m - 1);
    }
  }

  /** A chain never meets a claim that is further from its end. */
  lemma {:induction false} AvoidsLonger(log: Log, i: Id, n: nat, a: Id, m: nat)
    requires EndsIn(log, i, {}, n) && EndsIn(log, a, {}, m) && n < m
    ensures EndsIn(log, i, {a}, n)
    decreases n
  {
    hide Get;
    if i == a {
      EndsOnce(log, i, n, m);
    } else if n > 0 {
      AvoidsLonger(log, Get(log, i).value.supersededBy.value, n - 1, a, m);
    }
  }

  lemma {:induction false} AvoidsBoth(log: Log, i: Id, n: nat, a: Id, b: Id)
    requires EndsIn(log, i, {a}, n) && EndsIn(log, i, {b}, n)
    ensures EndsIn(log, i, {a, b}, n)
    decreases n
  {
    hide Get;
    if n > 0 {
      AvoidsBoth(log, Get(log, i).value.supersededBy.value, n - 1, a, b);
    }
  }

  /** Two logs that differ at most in these claims. */
  ghost predicate SameOutside(log: Log, log': Log, ids: set<Id>) {
    forall i :: i !in ids ==> Get(log', i) == Get(log, i)
  }

  lemma {:induction false} EndsOutside(log: Log, log': Log, ids: set<Id>, i: Id, n: nat)
    requires SameOutside(log, log', ids) && EndsIn(log, i, ids, n)
    ensures EndsIn(log', i, ids, n) && EndsIn(log', i, {}, n)
    decreases n
  {
    hide Get;
    assert Get(log', i) == Get(log, i);
    if n > 0 {
      EndsOutside(log, log', ids, Get(log, i).value.supersededBy.value, n - 1);
    }
  }

  /** A chain still ends if those of the rewritten claims do. */
  lemma {:induction false} StillEnds(log: Log, log': Log, ids: set<Id>, i: Id, n: nat)
    requires SameOutside(log, log', ids) && EndsIn(log, i, {}, n)
    requires forall j :: j in ids ==> EndsCurrent(log', j, {})
    ensures EndsCurrent(log', i, {})
    decreases n
  {
    hide Get;
    if i !in ids {
      assert Get(log', i) == Get(log, i);
      if n == 0 {
        assert EndsIn(log', i, {}, 0);
      } else {
        StillEnds(log, log', ids, Get(log, i).value.supersededBy.value, n - 1);
        OneStepFurther(log', i);
      }
    }
  }

  lemma OneStepFurther(log: Log, i: Id)
    requires Get(log, i).Some? && !Get(log, i).value.IsCurrent()
    ensures EndsCurrent(log, i, {}) <==> EndsCurrent(log, Get(log, i).value.supersededBy.value, {})
  {
    hide Get;
    var next := Get(log, i).value.supersededBy.value;
    if EndsCurrent(log, next, {}) {
      var n: nat :| EndsIn(log, next, {}, n);
      assert EndsIn(log, i, {}, n + 1);
    }
    if EndsCurrent(log, i, {}) {
      var n: nat :| EndsIn(log, i, {}, n);
      assert EndsIn(log, next, {}, n - 1);
    }
  }

  // ---- Which writes keep them ----------------------------------------------------------

  /** The claims an operation writes. */
  function Touched(op: Op): set<Id> {
    match op
    case Add(c) => {c.id}
    case Supersede(oldId, c) => {c.id, oldId}
  }

  lemma Stored(log: Log, op: Op, at: Time)
    requires DistinctIds(log) && Outcome(log, op).None?
    ensures DistinctIds(Step(log, op, at)) && SameOutside(log, Step(log, op, at), Touched(op))
    ensures Get(Step(log, op, at), Written(op).id) == Some(Written(op))
    ensures op.Supersede? ==> op.oldId != op.newClaim.id && Get(log, op.oldId).Some? && Get(log, op.oldId).value.IsCurrent()
    ensures op.Supersede? ==> Get(Step(log, op, at), op.oldId) == Some(Marked(Get(log, op.oldId).value, op.newClaim.id, at))
  {
    hide Put, Get, Corrected;
    StepKeepsDistinct(log, op, at);
    match op
    case Add(c) =>
      forall i ensures Get(Put(log, c), i) == if i == c.id then Some(c) else Get(log, i) {
        GetPut(log, c, i);
      }
    case Supersede(oldId, c) => CorrectionKeepsProvenance(log, oldId, c, at);
  }

  /** What an operation writes is current, or its own chain ends without passing what the operation
      writes. A refused operation writes nothing. */
  ghost predicate LeadsOn(log: Log, op: Op) {
    Outcome(log, op).None? && !Written(op).IsCurrent() ==> EndsCurrent(log, Written(op).supersededBy.value, Touched(op))
  }

  /** The written claims end where the chain goes on outside them. */
  lemma TouchedEnd(log: Log, op: Op, at: Time)
    requires DistinctIds(log) && Outcome(log, op).None? && LeadsOn(log, op)
    ensures forall j :: j in Touched(op) ==> EndsCurrent(Step(log, op, at), j, {})
  {
    hide Step, Get;
    Stored(log, op, at);
    var log', c := Step(log, op, at), Written(op);
    if c.IsCurrent() {
      assert EndsIn(log', c.id, {}, 0);
    } else {
      var n: nat :| EndsIn(log, c.supersededBy.value, Touched(op), n);
      EndsOutside(log, log', Touched(op), c.supersededBy.value, n);
      OneStepFurther(log', c.id);
    }
    if op.Supersede? {
      OneStepFurther(log', op.oldId);
    }
  }

  /** Where the written claims end, the chain goes on outside them. */
  lemma TouchedLeadOn(log: Log, op: Op, at: Time, n: nat)
    requires DistinctIds(log) && Outcome(log, op).None? && !Written(op).IsCurrent()
    requires EndsIn(Step(log, op, at), Written(op).id, {}, n)
    ensures LeadsOn(log, op)
  {
    hide Step, Get;
    Stored(log, op, at);
    var log', c := Step(log, op, at), Written(op);
    var next := c.supersededBy.value;
    AvoidsLonger(log', next, n - 1, c.id, n);
    if op.Supersede? {
      assert EndsIn(log', op.oldId, {}, n + 1);
      AvoidsLonger(log', next, n - 1, op.oldId, n + 1);
      AvoidsBoth(log', next, n - 1, c.id, op.oldId);
    }
    EndsOutside(log', log, Touched(op), next, n - 1);
  }

  /** An operation keeps every chain ending at a current claim if and only if what it writes leads on. No
      clock reading and no stored stamp plays a part. */
  lemma StepEndsCurrentIff(log: Log, op: Op, at: Time)
    requires AllEndCurrent(log)
    ensures AllEndCurrent(Step(log, op, at)) <==> LeadsOn(log, op)
  {
    hide Step, Get, LeadsOn, Touched;
    if Outcome(log, op).None? {
      Stored(log, op, at);
      var log', c := Step(log, op, at), Written(op);
      if LeadsOn(log, op) {
        TouchedEnd(log, op, at);
        forall i | Get(log', i).Some? ensures EndsCurrent(log', i, {}) {
          if i !in Touched(op) {
            var n: nat :| EndsIn(log, i, {}, n);
            StillEnds(log, log', Touched(op), i, n);
          }
        }
      } else if AllEndCurrent(log') {
        CurrentLeadsOn(log, op);
        var n: nat :| EndsIn(log', c.id, {}, n);
        TouchedLeadOn(log, op, at, n);
      }
    } else {
      RefusedLeadsOn(log, op, at);
    }
  }

  lemma CurrentLeadsOn(log: Log, op: Op)
    ensures Written(op).IsCurrent() ==> LeadsOn(log, op)
  {
  }

  lemma RefusedLeadsOn(log: Log, op: Op, at: Time)
    requires Outcome(log, op).Some?
    ensures LeadsOn(log, op) && Step(log, op, at) == log
  {
  }

  // ---- Chains in order of correction ---------------------------------------------------

  function LinkedTo(log: Log, c: Claim): Option<Claim> {
    if c.supersededBy.Some? then Get(log, c.supersededBy.value) else None
  }

  predicate CorrectedBefore(a: Claim, b: Claim) {
    a.supersededAt.Some? && b.supersededAt.Some? && a.supersededAt.value < b.supersededAt.value
  }

  /** A superseded claim has a stamp and names a stored claim, which was superseded later, if at all. */
  ghost predicate Ordered(log: Log, c: Claim) {
    c.supersededBy.Some? ==>
      && c.supersededAt.Some? && LinkedTo(log, c).Some?
      && (LinkedTo(log, c).value.supersededBy.Some? ==> CorrectedBefore(c, LinkedTo(log, c).value))
  }

  ghost predicate IsForest(log: Log) {
    DistinctIds(log) && forall i :: Get(log, i).Some? ==> Ordered(log, Get(log, i).value)
  }

  /** Every other stored claim that names `i` was superseded before `at`. */
  ghost predicate NamedBefore(log: Log, i: Id, at: Time, other: Id) {
    forall j :: j != other && Get(log, j).Some? && Get(log, j).value.supersededBy == Some(i) ==>
      Get(log, j).value.supersededAt.Some? && Get(log, j).value.supersededAt.value < at
  }

  /** A claim goes into the forest under its id: it is current, or it was superseded by another stored
      claim before that one was, and after every stored claim that it superseded. */
  ghost predicate Fits(log: Log, c: Claim) {
    c.supersededBy.Some? ==>
      && c.supersededBy.value != c.id && Ordered(log, c)
      && NamedBefore(log, c.id, c.supersededAt.value, c.id)
  }

  /** The write of an operation fits. For a correction: the new claim fits; if it is superseded itself,
      then later than `at` and not by what it corrects; and what the corrected claim corrected, other
      than the claim being written, was superseded before `at`. A refused operation writes nothing. */
  ghost predicate Fitting(log: Log, op: Op, at: Time) {
    Outcome(log, op).None? ==>
      match op
      case Add(c) => Fits(log, c)
      case Supersede(oldId, c) =>
        && Fits(log, c) && NamedBefore(log, oldId, at, c.id)
        && (!c.IsCurrent() ==> c.supersededBy.value != oldId && at < c.supersededAt.value)
  }

  /** Writing a claim keeps the forest if and only if the claim fits. */
  lemma PutKeepsForestIff(log: Log, c: Claim)
    requires IsForest(log)
    ensures IsForest(Put(log, c)) <==> Fits(log, c)
  {
    hide Put, Get;
    var log' := Put(log, c);
    PutKeepsDistinct(log, c);
    forall i ensures Get(log', i) == if i == c.id then Some(c) else Get(log, i) {
      GetPut(log, c, i);
    }
    if Fits(log, c) {
      forall i | Get(log', i).Some? ensures Ordered(log', Get(log', i).value) {
        assert i != c.id ==> Ordered(log, Get(log, i).value);
      }
    }
    if IsForest(log') {
      assert Ordered(log', Get(log', c.id).value);
      forall i | i != c.id && Get(log, i).Some? && Get(log, i).value.supersededBy == Some(c.id) && c.supersededBy.Some?
        ensures CorrectedBefore(Get(log, i).value, c)
      {
        assert Ordered(log', Get(log', i).value);
      }
    }
  }

  lemma FittingCorrectionKeepsForest(log: Log, oldId: Id, c: Claim, at: Time)
    requires IsForest(log) && Outcome(log, Op.Supersede(oldId, c)).None? && Fitting(log, Op.Supersede(oldId, c), at)
    ensures IsForest(Step(log, Op.Supersede(oldId, c), at))
  {
    hide Step, Get;
    var log' := Step(log, Op.Supersede(oldId, c), at);
    Stored(log, Op.Supersede(oldId, c), at);
    forall i | Get(log', i).Some? ensures Ordered(log', Get(log', i).value) {
      if i != c.id && i != oldId {
        assert Ordered(log, Get(log, i).value);
      }
    }
  }

  lemma ForestCorrectionFits(log: Log, oldId: Id, c: Claim, at: Time)
    requires IsForest(log) && Outcome(log, Op.Supersede(oldId, c)).None? && IsForest(Step(log, Op.Supersede(oldId, c), at))
    ensures Fitting(log, Op.Supersede(oldId, c), at)
  {
    hide Step, Get;
    var log' := Step(log, Op.Supersede(oldId, c), at);
    Stored(log, Op.Supersede(oldId, c), at);
    assert Ordered(log', Get(log', oldId).value) && Ordered(log', Get(log', c.id).value);
    forall i | i != c.id && Get(log, i).Some? && Get(log, i).value.supersededBy == Some(oldId)
      ensures Get(log, i).value.supersededAt.Some? && Get(log, i).value.supersededAt.value < at
    {
      assert Ordered(log', Get(log', i).value);
    }
    forall i | i != c.id && Get(log, i).Some? && Get(log, i).value.supersededBy == Some(c.id) && !c.IsCurrent()
      ensures CorrectedBefore(Get(log, i).value, c)
    {
      assert Ordered(log', Get(log', i).value);
    }
  }

  /** An operation keeps the forest if and only if its write fits, whatever the clock answers. */
  lemma StepKeepsForestIff(log: Log, op: Op, at: Time)
    requires IsForest(log)
    ensures IsForest(Step(log, op, at)) <==> Fitting(log, op, at)
  {
    hide IsForest, Fits, Corrected, Put;
    if Outcome(log, op).None? {
      match op
      case Add(c) => PutKeepsForestIff(log, c);
      case Supersede(oldId, c) =>
        if Fitting(log, op, at) {
          FittingCorrectionKeepsForest(log, oldId, c, at);
        }
        if IsForest(Step(log, op, at)) {
          ForestCorrectionFits(log, oldId, c, at);
        }
    }
  }

  // ---- Every run, from any log ---------------------------------------------------------

  ghost predicate EndCurrentAt(log: Log, ops: seq<Op>, ticks: seq<Time>, k: nat)
    requires |ops| == |ticks| && k <= |ops|
  {
    AllEndCurrent(RunFrom(log, ops[..k], ticks[..k]))
  }

  ghost predicate LeadsOnAt(log: Log, ops: seq<Op>, ticks: seq<Time>, k: nat)
    requires |ops| == |ticks| && k < |ops|
  {
    LeadsOn(RunFrom(log, ops[..k], ticks[..k]), ops[k])
  }

  ghost predicate ForestAt(log: Log, ops: seq<Op>, ticks: seq<Time>, k: nat)
    requires |ops| == |ticks| && k <= |ops|
  {
    IsForest(RunFrom(log, ops[..k], ticks[..k]))
  }

  ghost predicate FittingAt(log: Log, ops: seq<Op>, ticks: seq<Time>, k: nat)
    requires |ops| == |ticks| && k < |ops|
  {
    Fitting(RunFrom(log, ops[..k], ticks[..k]), ops[k], ticks[k])
  }

  /** Every write of the run leads on where it is made. */
  ghost predicate AllLeadOn(log: Log, ops: seq<Op>, ticks: seq<Time>)
    requires |ops| == |ticks|
  {
    forall k: nat :: k < |ops| ==> LeadsOnAt(log, ops, ticks, k)
  }

  /** Every write of the run fits where it is made. */
  ghost predicate AllFit(log: Log, ops: seq<Op>, ticks: seq<Time>)
    requires |ops| == |ticks|
  {
    forall k: nat :: k < |ops| ==> FittingAt(log, ops, ticks, k)
  }

  lemma NextEndsCurrentIff(log: Log, ops: seq<Op>, ticks: seq<Time>, k: nat)
    requires k < |ops| == |ticks| && EndCurrentAt(log, ops, ticks, k)
    ensures EndCurrentAt(log, ops, ticks, k + 1) <==> LeadsOnAt(log, ops, ticks, k)
  {
    hide AllEndCurrent, LeadsOn, Step, RunFrom;
    RunOneMore(log, ops, ticks, k);
    StepEndsCurrentIff(RunFrom(log, ops[..k], ticks[..k]), ops[k], ticks[k]);
  }

  lemma NextIsForestIff(log: Log, ops: seq<Op>, ticks: seq<Time>, k: nat)
    requires k < |ops| == |ticks| && ForestAt(log, ops, ticks, k)
    ensures ForestAt(log, ops, ticks, k + 1) <==> FittingAt(log, ops, ticks, k)
  {
    hide IsForest, Fitting, Step, RunFrom;
    RunOneMore(log, ops, ticks, k);
    StepKeepsForestIff(RunFrom(log, ops[..k], ticks[..k]), ops[k], ticks[k]);
  }

  lemma {:induction false} LeadingOnReaches(log: Log, ops: seq<Op>, ticks: seq<Time>, k: nat)
    requires k <= |ops| == |ticks| && AllEndCurrent(log) && AllLeadOn(log, ops, ticks)
    ensures EndCurrentAt(log, ops, ticks, k)
  {
    hide LeadsOnAt, AllEndCurrent;
    if k > 0 {
      LeadingOnReaches(log, ops, ticks, k - 1);
      NextEndsCurrentIff(log, ops, ticks, k - 1);
    }
  }

  lemma {:induction false} FittingReaches(log: Log, ops: seq<Op>, ticks: seq<Time>, k: nat)
    requires k <= |ops| == |ticks| && IsForest(log) && AllFit(log, ops, ticks)
    ensures ForestAt(log, ops, ticks, k)
  {
    hide FittingAt, IsForest;
    if k > 0 {
      FittingReaches(log, ops, ticks, k - 1);
      NextIsForestIff(log, ops, ticks, k - 1);
    }
  }

  /** From any log whose chains end at current claims, and with any clock answers: they do throughout a
      run if and only if every write of the run leads on. */
  lemma RunEndsCurrentIff(log: Log, ops: seq<Op>, ticks: seq<Time>)
    requires |ops| == |ticks| && AllEndCurrent(log)
    ensures (forall k: nat :: k <= |ops| ==> EndCurrentAt(log, ops, ticks, k)) <==> AllLeadOn(log, ops, ticks)
  {
    hide EndCurrentAt, LeadsOnAt, AllEndCurrent;
    if AllLeadOn(log, ops, ticks) {
      forall k: nat | k <= |ops| ensures EndCurrentAt(log, ops, ticks, k) {
        LeadingOnReaches(log, ops, ticks, k);
      }
    }
    if forall k: nat :: k <= |ops| ==> EndCurrentAt(log, ops, ticks, k) {
      forall k: nat | k < |ops| ensures LeadsOnAt(log, ops, ticks, k) {
        assert EndCurrentAt(log, ops, ticks, k + 1);
        NextEndsCurrentIff(log, ops, ticks, k);
      }
    }
  }

  /** From any forest, and with any clock answers: supersession is a forest throughout a run if and only
      if every write of the run fits. */
  lemma RunIsForestIff(log: Log, ops: seq<Op>, ticks: seq<Time>)
    requires |ops| == |ticks| && IsForest(log)
    ensures (forall k: nat :: k <= |ops| ==> ForestAt(log, ops, ticks, k)) <==> AllFit(log, ops, ticks)
  {
    hide ForestAt, FittingAt, IsForest;
    if AllFit(log, ops, ticks) {
      forall k: nat | k <= |ops| ensures ForestAt(log, ops, ticks, k) {
        FittingReaches(log, ops, ticks, k);
      }
    }
    if forall k: nat :: k <= |ops| ==> ForestAt(log, ops, ticks, k) {
      forall k: nat | k < |ops| ensures FittingAt(log, ops, ticks, k) {
        assert ForestAt(log, ops, ticks, k + 1);
        NextIsForestIff(log, ops, ticks, k);
      }
    }
  }

  // ---- Runs that write current claims --------------------------------------------------

  ghost predicate WritesCurrent(ops: seq<Op>) {
    forall k :: 0 <= k < |ops| ==> Written(ops[k]).IsCurrent()
  }

  /** Where every written claim is current, chains end at current claims whatever the clock does. */
  lemma RunEndsCurrent(log: Log, ops: seq<Op>, ticks: seq<Time>)
    requires |ops| == |ticks| && AllEndCurrent(log) && WritesCurrent(ops)
    ensures AllEndCurrent(RunFrom(log, ops, ticks))
  {
    hide RunFrom, AllEndCurrent, LeadsOn;
    forall k: nat | k < |ops| ensures LeadsOnAt(log, ops, ticks, k) {
      CurrentLeadsOn(RunFrom(log, ops[..k], ticks[..k]), ops[k]);
    }
    LeadingOnReaches(log, ops, ticks, |ops|);
    assert ops[..|ops|] == ops && ticks[..|ops|] == ticks;
  }

  ghost predicate StrictlyIncreasing(ticks: seq<Time>) {
    forall i, j :: 0 <= i < j < |ticks| ==> ticks[i] < ticks[j]
  }

  /** Every superseded claim was superseded before `at`. */
  ghost predicate StampedBefore(log: Log, at: Time) {
    forall i :: Get(log, i).Some? && !Get(log, i).value.IsCurrent() ==>
      Get(log, i).value.supersededAt.Some? && Get(log, i).value.supersededAt.value < at
  }

  /** The clock starts beyond every stamp in the log. */
  ghost predicate ClockAhead(log: Log, ticks: seq<Time>) {
    ticks != [] ==> StampedBefore(log, ticks[0])
  }

  lemma CurrentWriteFits(log: Log, op: Op, at: Time)
    requires Written(op).IsCurrent() && StampedBefore(log, at)
    ensures Fitting(log, op, at)
  {
    hide Get;
  }

  lemma StampsStayBefore(log: Log, op: Op, at: Time, later: Time)
    requires DistinctIds(log) && Written(op).IsCurrent() && StampedBefore(log, at) && at < later
    ensures StampedBefore(Step(log, op, at), later)
  {
    hide Step, Get;
    if Outcome(log, op).None? {
      Stored(log, op, at);
    } else {
      RefusedLeadsOn(log, op, at);
    }
  }

  lemma {:induction false} ClockStaysAhead(log: Log, ops: seq<Op>, ticks: seq<Time>, k: nat)
    requires k < |ops| == |ticks| && DistinctIds(log) && WritesCurrent(ops)
    requires StrictlyIncreasing(ticks) && ClockAhead(log, ticks)
    ensures StampedBefore(RunFrom(log, ops[..k], ticks[..k]), ticks[k])
  {
    hide Step, StampedBefore;
    if k > 0 {
      ClockStaysAhead(log, ops, ticks, k - 1);
      RunOneMore(log, ops, ticks, k - 1);
      RunKeepsDistinct(log, ops[..k - 1], ticks[..k - 1]);
      StampsStayBefore(RunFrom(log, ops[..k - 1], ticks[..k - 1]), ops[k - 1], ticks[k - 1], ticks[k]);
    }
  }

  /** Where every written claim is current and a clock that only moves forward starts beyond every stored
      stamp, as it does for an empty store, supersession stays a forest. */
  lemma RunIsForest(log: Log, ops: seq<Op>, ticks: seq<Time>)
    requires |ops| == |ticks| && IsForest(log) && WritesCurrent(ops)
    requires StrictlyIncreasing(ticks) && ClockAhead(log, ticks)
    ensures IsForest(RunFrom(log, ops, ticks))
  {
    hide RunFrom, Ordered, StampedBefore, Fitting, StrictlyIncreasing;
    forall k: nat | k < |ops| ensures FittingAt(log, ops, ticks, k) {
      ClockStaysAhead(log, ops, ticks, k);
      CurrentWriteFits(RunFrom(log, ops[..k], ticks[..k]), ops[k], ticks[k]);
    }
    FittingReaches(log, ops, ticks, |ops|);
    assert ops[..|ops|] == ops && ticks[..|ops|] == ticks;
  }

  /** A store and its clock, driven on from where they stand by any operations under any clock readings. */
  method Session(store: MemoryStore, clock: Clock, ops: seq<Op>, readings: seq<Time>)
    requires |ops| == |readings| && store.Valid()
    modifies store, clock
    ensures store.Valid() && store.log == RunFrom(old(store.log), ops, Ticks(old(clock.last), readings))
    ensures clock.last == Latest(old(clock.last), Ticks(old(clock.last), readings))
    ensures AllEndCurrent(old(store.log)) && WritesCurrent(ops) ==> AllEndCurrent(store.log)
    ensures IsForest(old(store.log)) && WritesCurrent(ops) && ClockAhead(old(store.log), Ticks(old(clock.last), readings)) ==>
      IsForest(store.log)
  {
    hide Step, RunFrom, Ticks, MemoryStore.Valid, IsForest, AllEndCurrent, WritesCurrent, ClockAhead;
    ghost var log, last := store.log, clock.last;
    ghost var ticks := Ticks(last, readings);
    NothingRun(log, last, ops, ticks);
    for k := 0 to |ops|
      invariant store.Valid() && store.log == RunFrom(log, ops[..k], ticks[..k])
      invariant clock.last == Latest(last, ticks[..k])
    {
      RunOneMore(log, ops, ticks, k);
      NextTickIs(last, readings, k);
      var at := clock.Now(readings[k]);
      match ops[k]
      case Add(c) =>
        AddNeedsNoClock(store.log, c, at);
        store.Add(c);
      case Supersede(oldId, c) =>
        var _ := store.Supersede(oldId, c, at);
    }
    assert ticks[..|ops|] == ticks && ops[..|ops|] == ops;
    SessionKeeps(log, last, ops, readings);
  }

  lemma NothingRun(log: Log, last: Option<Time>, ops: seq<Op>, ticks: seq<Time>)
    requires |ops| == |ticks|
    ensures RunFrom(log, ops[..0], ticks[..0]) == log && Latest(last, ticks[..0]) == last
  {
  }

  lemma SessionKeeps(log: Log, last: Option<Time>, ops: seq<Op>, readings: seq<Time>)
    requires |ops| == |readings|
    ensures AllEndCurrent(log) && WritesCurrent(ops) ==> AllEndCurrent(RunFrom(log, ops, Ticks(last, readings)))
    ensures IsForest(log) && WritesCurrent(ops) && ClockAhead(log, Ticks(last, readings)) ==> IsForest(RunFrom(log, ops, Ticks(last, readings)))
  {
    hide RunFrom, Ticks, IsForest, AllEndCurrent, ClockAhead, WritesCurrent;
    var ticks := Ticks(last, readings);
    if AllEndCurrent(log) && WritesCurrent(ops) {
      RunEndsCurrent(log, ops, ticks);
    }
    if IsForest(log) && WritesCurrent(ops) && ClockAhead(log, ticks) {
      forall i, j | 0 <= i < j < |ticks| ensures ticks[i] < ticks[j] {
        TicksIncrease(last, readings, i, j);
      }
      RunIsForest(log, ops, ticks);
    }
  }

  // ---- Chains of a forest --------------------------------------------------------------

  /** No claim of the log was superseded later than this. */
  function Horizon(log: Log): (high: Time)
    ensures forall c :: c in log && c.supersededAt.Some? ==> c.supersededAt.value <= high
  {
    if log == [] then 0
    else
      var n := |log| - 1;
      assert log == log[..n] + [log[n]];
      var high := Horizon(log[..n]);
      if log[n].supersededAt.Some? && log[n].supersededAt.value > high then log[n].supersededAt.value else high
  }

  /** What is left of the time up to the horizon; nothing for a current claim. */
  ghost function Remaining(log: Log, c: Claim): nat {
    if c.supersededBy.Some? && c.supersededAt.Some? && c.supersededAt.value <= Horizon(log)
    then Horizon(log) - c.supersededAt.value + 1
    else 0
  }

  /** Following one correction in a forest. */
  lemma NextClaim(log: Log, c: Claim)
    requires IsForest(log) && Get(log, c.id) == Some(c) && !c.IsCurrent()
    ensures LinkedTo(log, c).Some? && LinkedTo(log, c).value.id == c.supersededBy.value
    ensures Get(log, LinkedTo(log, c).value.id) == LinkedTo(log, c)
    ensures Remaining(log, LinkedTo(log, c).value) < Remaining(log, c)
    ensures !LinkedTo(log, c).value.IsCurrent() ==> CorrectedBefore(c, LinkedTo(log, c).value)
  {
    assert Get(log, c.id).Some?;
    assert c in log && LinkedTo(log, c).value in log;
  }

  /** Follow `superseded_by` to the end. */
  ghost function Chain(log: Log, c: Claim): (chain: seq<Claim>)
    requires IsForest(log) && Get(log, c.id) == Some(c)
    ensures chain != [] && chain[0] == c
    decreases Remaining(log, c)
  {
    if c.IsCurrent() then [c]
    else
      NextClaim(log, c);
      [c] + Chain(log, LinkedTo(log, c).value)
  }

  ghost predicate Follows(log: Log, walk: seq<Claim>) {
    && walk != []
    && (forall k :: 0 <= k < |walk| ==> Get(log, walk[k].id) == Some(walk[k]))
    && (forall k :: 0 <= k < |walk| - 1 ==> walk[k].supersededBy == Some(walk[k + 1].id))
  }

  /** The chain is a walk of strictly increasing `superseded_at` that ends at its only current claim. */
  lemma {:induction false} ChainEndsCurrent(log: Log, c: Claim)
    requires IsForest(log) && Get(log, c.id) == Some(c)
    ensures var chain := Chain(log, c);
      && Follows(log, chain)
      && (forall k :: 0 <= k < |chain| ==> (chain[k].IsCurrent() <==> k == |chain| - 1))
      && (forall i, j :: 0 <= i < j < |chain| - 1 ==> CorrectedBefore(chain[i], chain[j]))
    decreases Remaining(log, c)
  {
    if !c.IsCurrent() {
      hide IsForest, Remaining;
      NextClaim(log, c);
      ChainEndsCurrent(log, LinkedTo(log, c).value);
    }
  }

  /** There is one way to follow the links: every walk to a current claim is the chain. */
  lemma {:induction false} ChainIsTheOnlyWalk(log: Log, walk: seq<Claim>)
    requires IsForest(log) && Follows(log, walk) && walk[|walk| - 1].IsCurrent()
    ensures walk == Chain(log, walk[0])
  {
    if |walk| > 1 {
      assert LinkedTo(log, walk[0]) == Some(walk[1]);
      ChainIsTheOnlyWalk(log, walk[1..]);
      assert walk == [walk[0]] + walk[1..];
    }
  }

  /** In a forest every chain ends at a current claim. */
  lemma {:induction false} ForestEndsCurrent(log: Log, c: Claim)
    requires IsForest(log) && Get(log, c.id) == Some(c)
    ensures EndsCurrent(log, c.id, {})
    decreases Remaining(log, c)
  {
    hide IsForest, Get, Remaining;
    if c.IsCurrent() {
      assert EndsIn(log, c.id, {}, 0);
    } else {
      NextClaim(log, c);
      ForestEndsCurrent(log, LinkedTo(log, c).value);
      OneStepFurther(log, c.id);
    }
  }

  // ---- What `current` and `dead_ends` divide between them ------------------------------

  function IsAbout(norm: Normalizer, subject: Text): Claim -> bool {
    (c: Claim) => norm(c.subject) == norm(subject)
  }

  /** Every claim about a subject is in exactly one of the two answers, as often as it is stored. */
  lemma {:induction false} CurrentAndDeadEndsPartition(log: Log, norm: Normalizer, subject: Text)
    ensures multiset(Current(log, norm, subject, None)) + multiset(DeadEnds(log, norm, subject))
         == multiset(Filter(IsAbout(norm, subject), log))
    ensures forall c :: !(c in Current(log, norm, subject, None) && c in DeadEnds(log, norm, subject))
  {
    if log != [] {
      var front, c := log[..|log| - 1], log[|log| - 1];
      SplitLast(log);
      CurrentAndDeadEndsPartition(front, norm, subject);
      assert IsAbout(norm, subject)(c) <==> IsCurrentAbout(norm, subject, None)(c) || IsDeadEndAbout(norm, subject)(c);
    }
  }

  // ---- Where it goes wrong -------------------------------------------------------------

  /** Correct A with a claim that already names A as its own correction: the two supersede each other
      and neither is current. */
  lemma StaleReplacementMakesCycle(a: Claim, b: Claim, at: Time)
    requires a.id != b.id && a.IsCurrent() && b.supersededBy == Some(a.id)
    ensures var log := Step([a], Op.Supersede(a.id, b), at);
      !b.IsCurrent() && LinkedTo(log, Marked(a, b.id, at)) == Some(b) && LinkedTo(log, b) == Some(Marked(a, b.id, at))
  {
    GetPut([a], b, a.id);
    GetPut([a], b, b.id);
    PutKeepsDistinct([a], b);
    GetPut(Put([a], b), Marked(a, b.id, at), a.id);
    GetPut(Put([a], b), Marked(a, b.id, at), b.id);
  }

  lemma TwoClaims(x: Claim, y: Claim)
    requires x.id != y.id
    ensures DistinctIds([x, y])
    ensures forall i :: Get([x, y], i) == if i == x.id then Some(x) else if i == y.id then Some(y) else None
  {
    assert Put([x], y) == [x, y];
    forall i ensures Get([x, y], i) == if i == x.id then Some(x) else if i == y.id then Some(y) else None {
      GetPut([x], y, i);
    }
  }

  /** A clock that stands behind a stored stamp breaks the order, though not the chains: A was corrected
      by B at `stamp`, and B is now corrected by C at a time that is not later. */
  lemma ClockBehindBreaksOrder(a: Claim, b: Claim, c: Claim, stamp: Time, at: Time)
    requires a.id != b.id && b.id != c.id && c.id != a.id && b.IsCurrent() && c.IsCurrent() && at <= stamp
    ensures var log := [Marked(a, b.id, stamp), b];
      var log' := Step(log, Op.Supersede(b.id, c), at);
      IsForest(log) && AllEndCurrent(log') && !IsForest(log')
  {
    hide Get, Step;
    var log := [Marked(a, b.id, stamp), b];
    TwoClaims(log[0], b);
    assert Get(log, a.id) == Some(log[0]) && !NamedBefore(log, b.id, at, c.id);
    StepKeepsForestIff(log, Op.Supersede(b.id, c), at);
    forall i | Get(log, i).Some? ensures EndsCurrent(log, i, {}) {
      ForestEndsCurrent(log, Get(log, i).value);
    }
    StepEndsCurrentIff(log, Op.Supersede(b.id, c), at);
  }
}

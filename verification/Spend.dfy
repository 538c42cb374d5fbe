/** A spending ceiling checked before each call and charged after it (grapharc/gateway/spend.py). */
module Spend {
  import opened Options
  import opened Seqs
  import opened Texts

  /** One call's bill: unpriced where the provider reports no cost. */
  datatype Bill = Bill(cost: Option<real>, model: Option<Text>) {
    predicate Named() { model.Some? && model.value.chars != "" }
  }

  /** The bills charged so far, in order. */
  type Ledger = seq<Bill>

  function Cost(b: Bill): real { if b.cost.Some? then b.cost.value else 0.0 }

  function Spent(ledger: Ledger): real {
    if ledger == [] then 0.0 else Spent(ledger[..|ledger| - 1]) + Cost(ledger[|ledger| - 1])
  }

  function IsUnpriced(): Bill -> bool { (b: Bill) => b.cost.None? }

  function IsPriced(): Bill -> bool { (b: Bill) => b.cost.Some? }

  function Unpriced(ledger: Ledger): nat {
    |Filter(IsUnpriced(), ledger)|
  }

  function Priced(ledger: Ledger): nat {
    |Filter(IsPriced(), ledger)|
  }

  /** What is charged under one model's name. */
  function SpentOn(ledger: Ledger, model: Text): real {
    Spent(Filter(IsFor(model), ledger))
  }

  function IsFor(model: Text): Bill -> bool {
    (b: Bill) => b.cost.Some? && b.Named() && b.model.value == model
  }

  function IsNamed(): Bill -> bool { (b: Bill) => b.cost.Some? && b.Named() }

  // ---- Counts --------------------------------------------------------------------------

  /** Every call is priced or unpriced. */
  lemma {:induction false} CallsAddUp(ledger: Ledger)
    ensures Priced(ledger) + Unpriced(ledger) == |ledger|
  {
    if ledger != [] {
      CallsAddUp(ledger[..|ledger| - 1]);
    }
  }

  // ---- Totals by model -----------------------------------------------------------------

  function Total(names: seq<Text>, per: map<Text, real>): real
    requires forall n :: n in names ==> n in per
  {
    if names == [] then 0.0 else
      assert names[|names| - 1] in names;
      Total(names[..|names| - 1], per) + per[names[|names| - 1]]
  }

  ghost predicate TotalsHold(per: map<Text, real>, ledger: Ledger) {
    && (forall m :: m in per ==> per[m] == SpentOn(ledger, m))
    && (forall b :: b in ledger && IsNamed()(b) ==> b.model.value in per)
  }

  /** Add one bill to its model's total. */
  function Tallied(per: map<Text, real>, b: Bill): map<Text, real> {
    if b.cost.None? || !b.Named() then per
    else per[b.model.value := (if b.model.value in per then per[b.model.value] else 0.0) + b.cost.value]
  }

  /** One model's total grows by the amount, from nothing if it had none, and the others stay. */
  ghost predicate AddsTo(per: map<Text, real>, model: Text, amount: real, per': map<Text, real>) {
    && (forall m :: m in per' <==> m in per || m == model)
    && (forall m :: m in per && m != model ==> per'[m] == per[m])
    && per'[model] == amount + if model in per then per[model] else 0.0
  }

  lemma {:induction false} NoBillsNoSpend(ledger: Ledger, model: Text)
    requires forall b :: b in ledger ==> !IsFor(model)(b)
    ensures Filter(IsFor(model), ledger) == []
  {
    if ledger != [] {
      NoBillsNoSpend(ledger[..|ledger| - 1], model);
      assert ledger[|ledger| - 1] in ledger;
    }
  }

  lemma TallyHolds(per: map<Text, real>, ledger: Ledger, b: Bill)
    requires TotalsHold(per, ledger)
    ensures TotalsHold(Tallied(per, b), ledger + [b])
  {
    var per' := Tallied(per, b);
    forall m | m in per' ensures per'[m] == SpentOn(ledger + [b], m) {
      FilterLast(IsFor(m), ledger, b);
      if m !in per {
        NoBillsNoSpend(ledger, m);
      }
      SpentLast(Filter(IsFor(m), ledger), b);
    }
    forall d | d in ledger + [b] && IsNamed()(d) ensures d.model.value in per' {
      assert d in ledger || d == b;
    }
  }

  lemma SpentLast(ledger: Ledger, b: Bill)
    ensures Spent(ledger + [b]) == Spent(ledger) + Cost(b)
  {
    assert (ledger + [b])[..|ledger|] == ledger;
  }

  lemma UnpricedLast(ledger: Ledger, b: Bill)
    ensures Unpriced(ledger + [b]) == Unpriced(ledger) + if b.cost.None? then 1 else 0
  {
    FilterLast(IsUnpriced(), ledger, b);
  }

  function IsForOneOf(names: seq<Text>): Bill -> bool {
    (b: Bill) => b.cost.Some? && b.Named() && b.model.value in names
  }

  lemma {:induction false} SpentSplits(ledger: Ledger, names: seq<Text>, model: Text)
    requires model !in names
    ensures Spent(Filter(IsForOneOf(names + [model]), ledger)) == Spent(Filter(IsForOneOf(names), ledger)) + SpentOn(ledger, model)
  {
    if ledger != [] {
      var front, b := ledger[..|ledger| - 1], ledger[|ledger| - 1];
      assert ledger == front + [b];
      SpentSplits(front, names, model);
      FilterLast(IsForOneOf(names + [model]), front, b);
      FilterLast(IsForOneOf(names), front, b);
      FilterLast(IsFor(model), front, b);
      SpentLast(Filter(IsForOneOf(names + [model]), front), b);
      SpentLast(Filter(IsForOneOf(names), front), b);
      SpentLast(Filter(IsFor(model), front), b);
    }
  }

  lemma {:induction false} TotalIsSpent(names: seq<Text>, per: map<Text, real>, ledger: Ledger)
    requires Distinct(names) && TotalsHold(per, ledger) && forall n :: n in names ==> n in per
    ensures Total(names, per) == Spent(Filter(IsForOneOf(names), ledger))
  {
    if names == [] {
      NobodyIsNamed(ledger);
    } else {
      var front, last := names[..|names| - 1], names[|names| - 1];
      assert last in names && last !in front && names == front + [last];
      TotalIsSpent(front, per, ledger);
      SpentSplits(ledger, front, last);
    }
  }

  lemma {:induction false} NobodyIsNamed(ledger: Ledger)
    ensures Filter(IsForOneOf([]), ledger) == []
  {
    if ledger != [] {
      NobodyIsNamed(ledger[..|ledger| - 1]);
    }
  }

  lemma {:induction false} SameBills(p: Bill -> bool, q: Bill -> bool, ledger: Ledger)
    requires forall b :: b in ledger ==> p(b) == q(b)
    ensures Filter(p, ledger) == Filter(q, ledger)
  {
    if ledger != [] {
      SameBills(p, q, ledger[..|ledger| - 1]);
      assert ledger[|ledger| - 1] in ledger;
    }
  }

  /** Summed over every name it holds, the per-model table is the spend of the named, priced calls. */
  lemma PerModelSumsToNamedSpend(names: seq<Text>, per: map<Text, real>, ledger: Ledger)
    requires Distinct(names) && TotalsHold(per, ledger) && forall n :: n in names <==> n in per
    ensures Total(names, per) == Spent(Filter(IsNamed(), ledger))
  {
    TotalIsSpent(names, per, ledger);
    forall b | b in ledger ensures IsForOneOf(names)(b) == IsNamed()(b) {
      assert IsNamed()(b) ==> b.model.value in per;
    }
    SameBills(IsForOneOf(names), IsNamed(), ledger);
  }

  // ---- The meter -----------------------------------------------------------------------

  predicate Reached(ceiling: Option<real>, spent: real) { ceiling.Some? && spent >= ceiling.value }

  class SpendMeter {
    const ceiling: Option<real>
    var spent: real
    var calls: nat
    var unpriced: nat
    var perModel: map<Text, real>
    ghost var ledger: Ledger

    ghost predicate Valid()
      reads this
    {
      spent == Spent(ledger) && calls == |ledger| && unpriced == Unpriced(ledger) && TotalsHold(perModel, ledger)
    }

    constructor (ceiling: Option<real>)
      ensures Valid() && ledger == [] && this.ceiling == ceiling
    {
      this.ceiling, spent, calls, unpriced, perModel, ledger := ceiling, 0.0, 0, 0, map[], [];
    }

    method EnsureHeadroom() returns (refused: bool)
      requires Valid()
      ensures refused == Reached(ceiling, Spent(ledger))
      ensures refused <==> ceiling.Some? && spent >= ceiling.value
    {
      if ceiling.None? {
        return false;
      }
      refused := spent >= ceiling.value;
    }

    /** The charge lands whether or not it is then reported as crossing the ceiling. */
    method Charge(b: Bill) returns (exceeded: bool)
      requires Valid()
      modifies this
      ensures Valid() && ledger == old(ledger) + [b] && calls == old(calls) + 1
      ensures b.cost.None? ==> unpriced == old(unpriced) + 1 && spent == old(spent) && perModel == old(perModel)
      ensures b.cost.Some? ==> unpriced == old(unpriced) && spent == old(spent) + b.cost.value
      ensures b.cost.Some? && (b.model.None? || b.model.value.chars == "") ==> perModel == old(perModel)
      ensures b.cost.Some? && b.model.Some? && b.model.value.chars != "" ==> AddsTo(old(perModel), b.model.value, b.cost.value, perModel)
      ensures exceeded <==> b.cost.Some? && ceiling.Some? && spent > ceiling.value
    {
      hide Spent, Unpriced, TotalsHold;
      SpentLast(ledger, b);
      UnpricedLast(ledger, b);
      TallyHolds(perModel, ledger, b);
      calls := calls + 1;
      ledger := ledger + [b];
      if b.cost.None? {
        unpriced := unpriced + 1;
        return false;
      }
      spent := spent + b.cost.value;
      perModel := Tallied(perModel, b);
      exceeded := ceiling.Some? && spent > ceiling.value;
    }
  }

  // ---- Calls in flight -----------------------------------------------------------------

  type Caller(==, !new, 0)

  /** A caller checks for headroom, and if it was not refused charges its bill later, or fails without one. */
  datatype Event = Check(caller: Caller) | Settle(caller: Caller, bill: Bill) | Fail(caller: Caller)

  datatype State = State(ledger: Ledger, inFlight: set<Caller>)

  predicate Enabled(s: State, e: Event) {
    match e
    case Check(c) => c !in s.inFlight
    case Settle(c, _) => c in s.inFlight
    case Fail(c) => c in s.inFlight
  }

  function Next(ceiling: Option<real>, s: State, e: Event): State {
    if !Enabled(s, e) then s
    else match e
      case Check(c) => if Reached(ceiling, Spent(s.ledger)) then s else s.(inFlight := s.inFlight + {c})
      case Settle(c, b) => State(s.ledger + [b], s.inFlight - {c})
      case Fail(c) => s.(inFlight := s.inFlight - {c})
  }

  function Run(ceiling: Option<real>, events: seq<Event>): State {
    if events == [] then State([], {}) else Next(ceiling, Run(ceiling, events[..|events| - 1]), events[|events| - 1])
  }

  /** The n-th event is a check that found the charged amount below the ceiling. */
  ghost predicate Admitted(ceiling: Option<real>, events: seq<Event>, n: nat) {
    n < |events| && events[n].Check? && (ceiling.None? || Spent(Run(ceiling, events[..n]).ledger) < ceiling.value)
  }

  /** The i-th event admitted the caller, and before the n-th it has neither charged nor failed since. */
  ghost predicate PendingSince(ceiling: Option<real>, events: seq<Event>, n: nat, c: Caller, i: nat) {
    && i < n <= |events| && Admitted(ceiling, events, i) && events[i].caller == c
    && forall j :: i < j < n && events[j].caller == c ==> events[j].Check?
  }

  ghost predicate Pending(ceiling: Option<real>, events: seq<Event>, n: nat, c: Caller) {
    exists i: nat :: PendingSince(ceiling, events, n, c, i)
  }

  lemma {:induction false} InFlightIffPending(ceiling: Option<real>, events: seq<Event>, n: nat, c: Caller)
    requires n <= |events|
    ensures c in Run(ceiling, events[..n]).inFlight <==> Pending(ceiling, events, n, c)
  {
    hide Spent;
    if n == 0 {
      assert events[..0] == [];
    } else {
      var e := events[n - 1];
      InFlightIffPending(ceiling, events, n - 1, c);
      InFlightIffPending(ceiling, events, n - 1, e.caller);
      assert events[..n][..n - 1] == events[..n - 1];
      PendingNext(ceiling, events, n - 1, c);
    }
  }

  lemma AdmittedIsCheck(ceiling: Option<real>, events: seq<Event>, n: nat)
    requires n < |events|
    ensures Admitted(ceiling, events, n) ==> events[n].Check?
  {
  }

  /** Who is pending after one more event. */
  lemma PendingNext(ceiling: Option<real>, events: seq<Event>, n: nat, c: Caller)
    requires n < |events|
    ensures Pending(ceiling, events, n + 1, c)
       <==> if events[n].caller != c then Pending(ceiling, events, n, c)
            else events[n].Check? && (Pending(ceiling, events, n, c) || Admitted(ceiling, events, n))
  {
    hide Admitted;
    if Pending(ceiling, events, n, c) && (events[n].caller != c || events[n].Check?) {
      var i: nat :| PendingSince(ceiling, events, n, c, i);
      assert PendingSince(ceiling, events, n + 1, c, i);
    }
    if events[n].caller == c && events[n].Check? && Admitted(ceiling, events, n) {
      assert PendingSince(ceiling, events, n + 1, c, n);
    }
    if Pending(ceiling, events, n + 1, c) {
      var i: nat :| PendingSince(ceiling, events, n + 1, c, i);
      assert i == n || PendingSince(ceiling, events, n, c, i);
      assert i == n ==> Admitted(ceiling, events, n) && events[n].Check? by { AdmittedIsCheck(ceiling, events, n); }
    }
  }

  /** A bill lands in the ledger exactly when its caller was admitted and has neither charged nor failed
      since; nothing else does. */
  lemma ChargedIffPending(ceiling: Option<real>, events: seq<Event>, n: nat)
    requires n < |events|
    ensures var e := events[n];
      Run(ceiling, events[..n + 1]).ledger
      == Run(ceiling, events[..n]).ledger + if e.Settle? && Pending(ceiling, events, n, e.caller) then [e.bill] else []
  {
    hide Spent, Pending;
    assert events[..n + 1][..n] == events[..n];
    InFlightIffPending(ceiling, events, n, events[n].caller);
  }

  /** At most `k` calls in flight at any time, each costing between nothing and `most`. */
  ghost predicate Within(ceiling: Option<real>, events: seq<Event>, k: nat, most: real) {
    && (forall n :: 0 <= n <= |events| ==> |Run(ceiling, events[..n]).inFlight| <= k)
    && (forall e :: e in events && e.Settle? ==> 0.0 <= Cost(e.bill) <= most)
  }

  /** The most that `n` calls may cost. */
  function Exposure(n: nat, most: real): real { n as real * most }

  /** What is spent and what the calls in flight may still cost stays under the bound. */
  ghost predicate Bounded(ceiling: real, s: State, k: nat, most: real) {
    (s.ledger == [] && s.inFlight == {}) || Spent(s.ledger) + Exposure(|s.inFlight|, most) < ceiling + Exposure(k, most)
  }

  lemma MoreCalls(n: nat, k: nat, most: real)
    requires n <= k && most >= 0.0
    ensures Exposure(n, most) <= Exposure(k, most)
    ensures Exposure(n + 1, most) == Exposure(n, most) + most && Exposure(0, most) == 0.0
  {
    assert (k - n) as real * most >= 0.0;
    assert (k - n) as real * most == k as real * most - n as real * most;
  }

  lemma StepStaysBounded(ceiling: real, s: State, e: Event, k: nat, most: real)
    requires Bounded(ceiling, s, k, most) && most >= 0.0
    requires |Next(Some(ceiling), s, e).inFlight| <= k && (e.Settle? ==> 0.0 <= Cost(e.bill) <= most)
    ensures Bounded(ceiling, Next(Some(ceiling), s, e), k, most)
  {
    hide Exposure, Spent;
    var after := Next(Some(ceiling), s, e);
    if Enabled(s, e) {
      if e.Check? {
        if !Reached(Some(ceiling), Spent(s.ledger)) {
          assert |after.inFlight| == |s.inFlight| + 1;
          MoreCalls(|after.inFlight|, k, most);
        }
      } else {
        assert s.inFlight == after.inFlight + {e.caller};
        MoreCalls(|after.inFlight|, |s.inFlight|, most);
        if e.Settle? {
          SpentLast(s.ledger, e.bill);
        }
      }
    }
  }

  /** Whatever the interleaving, a ceiling is overspent by less than what the calls in flight may cost. */
  lemma {:induction false} OverspendBound(ceiling: real, events: seq<Event>, k: nat, most: real)
    requires most >= 0.0 && Within(Some(ceiling), events, k, most)
    ensures Bounded(ceiling, Run(Some(ceiling), events), k, most)
    ensures var spent := Spent(Run(Some(ceiling), events).ledger); spent == 0.0 || spent < ceiling + k as real * most
  {
    hide Enabled, Next;
    if events != [] {
      var n := |events| - 1;
      forall m | 0 <= m <= n ensures |Run(Some(ceiling), events[..n][..m]).inFlight| <= k {
        assert events[..n][..m] == events[..m];
      }
      OverspendBound(ceiling, events[..n], k, most);
      assert events[..|events|] == events && events[n] in events;
      StepStaysBounded(ceiling, Run(Some(ceiling), events[..n]), events[n], k, most);
    }
    var end := Run(Some(ceiling), events);
    MoreCalls(0, |end.inFlight|, most);
  }

  /** One caller's step: a check, a charge, or a failure that charges nothing. */
  method Handle(meter: SpendMeter, inFlight0: set<Caller>, e: Event) returns (inFlight: set<Caller>)
    requires meter.Valid()
    modifies meter
    ensures meter.Valid()
    ensures State(meter.ledger, inFlight) == Next(meter.ceiling, State(old(meter.ledger), inFlight0), e)
  {
    hide SpendMeter.Valid, Spent;
    inFlight := inFlight0;
    match e
    case Check(c) =>
      if c !in inFlight {
        var refused := meter.EnsureHeadroom();
        if !refused {
          inFlight := inFlight + {c};
        }
      }
    case Settle(c, b) =>
      if c in inFlight {
        var _ := meter.Charge(b);
        inFlight := inFlight - {c};
      }
    case Fail(c) =>
      if c in inFlight {
        inFlight := inFlight - {c};
      }
  }

  /** The meter, driven by any interleaving of checks, charges and failures, holds that ledger. */
  method Drive(ceiling: Option<real>, events: seq<Event>) returns (meter: SpendMeter)
    ensures fresh(meter) && meter.Valid() && meter.ledger == Run(ceiling, events).ledger
    ensures meter.calls == Priced(meter.ledger) + meter.unpriced
  {
    hide Next, Spent;
    meter := new SpendMeter(ceiling);
    var inFlight: set<Caller> := {};
    for n := 0 to |events|
      invariant fresh(meter) && meter.Valid() && meter.ceiling == ceiling
      invariant State(meter.ledger, inFlight) == Run(ceiling, events[..n])
    {
      assert events[..n + 1][..n] == events[..n];
      inFlight := Handle(meter, inFlight, events[n]);
    }
    assert events[..|events|] == events;
    CallsAddUp(meter.ledger);
  }
}

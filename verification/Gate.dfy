/** The gate in front of every tool (grapharc/harness/core.py, tools.py, hooks.py). */
module Gate {
  import opened Options
  import opened Seqs
  import opened Sorting
  import opened Texts
  import opened Permissions

  /** JSON arguments, and what a tool returns. */
  type Args(==, !new, 0)
  type Value(==, !new, 0)

  datatype ToolSpec = ToolSpec(name: Text, description: Text, needsNetwork: bool, timeoutSeconds: real)

  datatype Failure =
    | PermissionDenied(reason: DenialReason)
    | SandboxViolation(message: Text)
    | BudgetExceeded(message: Text)
    | OtherError(message: Text)

  datatype DenialReason = UnknownTool | ByPolicy | NoApproval | ByHook(why: Text) | Raised(message: Text)

  datatype Outcome = Returned(value: Value) | Failed(failure: Failure)

  /** What an approval callback does: a refusal is an answer, an exception is not. */
  datatype Approval = Granted | Withheld | ApprovalFails(failure: Failure)

  datatype HookAnswer = NoOpinion | DenyCall(why: Text) | Rewrite(args: Option<Args>) | HookFails(failure: Failure)

  /** Everything the harness asks of its surroundings. The number counts calls, so that answers may
      depend on all that went before. */
  datatype World = World(
    approval: Option<(nat, Text, Args) -> Approval>,
    preHooks: seq<(nat, Text, Args) -> HookAnswer>,
    execute: (nat, ToolSpec, Args) -> Outcome,
    postHooks: seq<(nat, Text, Args, Value) -> Outcome>,
    denialHookRaises: Option<(nat, Text) -> bool>)

  // ---- The registry --------------------------------------------------------------------

  class ToolRegistry {
    var tools: map<Text, ToolSpec>
    var names: seq<Text>

    ghost predicate Valid()
      reads this
    {
      Distinct(names) && (forall n :: n in names <==> n in tools) && forall n :: n in tools ==> tools[n].name == n
    }

    constructor ()
      ensures Valid() && tools == map[]
    {
      tools, names := map[], [];
    }

    /** Register once: a name that is taken is refused and keeps its tool. */
    method Register(spec: ToolSpec) returns (registered: bool)
      requires Valid()
      modifies this
      ensures Valid() && registered == (spec.name !in old(tools))
      ensures tools == if registered then old(tools)[spec.name := spec] else old(tools)
    {
      registered := spec.name !in tools;
      if registered {
        tools, names := tools[spec.name := spec], names + [spec.name];
      }
    }

    method Find(name: Text) returns (spec: Option<ToolSpec>)
      requires Valid()
      ensures spec == if name in tools then Some(tools[name]) else None
    {
      spec := if name in tools then Some(tools[name]) else None;
    }

    /** Exactly the registered tools that no rule denies by name, each once and in order of name. */
    method Visible(glob: Glob, policy: Policy) returns (specs: seq<ToolSpec>)
      requires Valid()
      ensures forall s :: s in specs <==> IsVisible(tools, glob, policy, s)
      ensures forall i, j :: 0 <= i < j < |specs| ==> TextLe(specs[i].name, specs[j].name) && specs[i].name != specs[j].name
    {
      hide TextLe, Sort, Decide, VisibleUpTo;
      var sorted := Sort(TextLe, names);
      SortedNames(names);
      NoneVisible(tools, glob, policy);
      specs := [];
      for k := 0 to |sorted|
        invariant VisibleUpTo(tools, glob, policy, sorted[..k], specs)
      {
        assert sorted[k] in sorted && sorted[..k + 1] == sorted[..k] + [sorted[k]];
        VisibleGrows(tools, glob, policy, sorted[..k], sorted[k], specs);
        if Decide(glob, policy, sorted[k]) != Deny {
          specs := specs + [tools[sorted[k]]];
        }
      }
      assert sorted[..|sorted|] == sorted;
      AllVisible(tools, glob, policy, sorted, specs);
    }
  }

  ghost predicate VisibleUpTo(tools: map<Text, ToolSpec>, glob: Glob, policy: Policy, names: seq<Text>, specs: seq<ToolSpec>) {
    && (forall s :: s in specs <==> IsVisible(tools, glob, policy, s) && s.name in names)
    && (forall i, j :: 0 <= i < j < |specs| ==> TextLe(specs[i].name, specs[j].name) && specs[i].name != specs[j].name)
  }

  lemma NoneVisible(tools: map<Text, ToolSpec>, glob: Glob, policy: Policy)
    ensures VisibleUpTo(tools, glob, policy, [], [])
  {
  }

  lemma VisibleGrows(tools: map<Text, ToolSpec>, glob: Glob, policy: Policy, names: seq<Text>, name: Text, specs: seq<ToolSpec>)
    requires VisibleUpTo(tools, glob, policy, names, specs) && name in tools && tools[name].name == name
    requires name !in names && forall n :: n in names ==> TextLe(n, name)
    ensures VisibleUpTo(tools, glob, policy, names + [name],
                        if Decide(glob, policy, name) != Deny then specs + [tools[name]] else specs)
  {
    hide TextLe, Decide;
    forall i | 0 <= i < |specs| ensures TextLe(specs[i].name, name) && specs[i].name != name {
      assert specs[i] in specs;
    }
  }

  lemma AllVisible(tools: map<Text, ToolSpec>, glob: Glob, policy: Policy, names: seq<Text>, specs: seq<ToolSpec>)
    requires VisibleUpTo(tools, glob, policy, names, specs) && forall n :: n in tools ==> n in names
    ensures forall s :: s in specs <==> IsVisible(tools, glob, policy, s)
    ensures forall i, j :: 0 <= i < j < |specs| ==> TextLe(specs[i].name, specs[j].name) && specs[i].name != specs[j].name
  {
  }

  lemma SortedNames(names: seq<Text>)
    requires Distinct(names)
    ensures var sorted := Sort(TextLe, names);
      && (forall n :: n in sorted <==> n in names)
      && (forall i, j :: 0 <= i < j < |sorted| ==> TextLe(sorted[i], sorted[j]) && sorted[i] != sorted[j])
  {
    hide TextLe;
    var sorted := Sort(TextLe, names);
    TextOrder();
    SortSorts(TextLe, names);
    SortPermutes(TextLe, names);
    SameElements(sorted, names);
    SortKeepsDistinct(TextLe, names);
  }

  predicate IsVisible(tools: map<Text, ToolSpec>, glob: Glob, policy: Policy, s: ToolSpec) {
    s.name in tools && tools[s.name] == s && Decide(glob, policy, s.name) != Deny
  }

  // ---- One call ------------------------------------------------------------------------

  datatype Hooked = Go(args: Args) | Stop(failure: Failure)

  /** Pre-hooks in order: the first with an opinion decides. */
  function RunPreHooks(hooks: seq<(nat, Text, Args) -> HookAnswer>, n: nat, name: Text, args: Args): Hooked {
    if hooks == [] then Go(args)
    else match hooks[0](n, name, args)
      case NoOpinion => RunPreHooks(hooks[1..], n, name, args)
      case DenyCall(why) => Stop(PermissionDenied(ByHook(why)))
      case Rewrite(new_) => Go(if new_.Some? then new_.value else args)
      case HookFails(f) => Stop(f)
  }

  /** Post-hooks in order, each on the result of the one before; one that fails ends the call. */
  function RunPostHooks(hooks: seq<(nat, Text, Args, Value) -> Outcome>, n: nat, name: Text, args: Args, result: Outcome): Outcome {
    if result.Failed? || hooks == [] then result
    else RunPostHooks(hooks[1..], n, name, args, hooks[0](n, name, args, result.value))
  }

  /** An executor run: which call, which tool, and the arguments it was asked with and given. */
  datatype Invocation = Invocation(call: nat, spec: ToolSpec, asked: Args, given: Args)

  datatype CallResult = CallResult(outcome: Outcome, ran: Option<Invocation>)

  /** The answer of the approval channel; where there is none, approval is withheld. */
  function Asked(w: World, n: nat, name: Text, args: Args): Approval {
    if w.approval.Some? then w.approval.value(n, name, args) else Withheld
  }

  /** What the gate makes of a call to a registered tool once the policy has decided. */
  function Decided(w: World, decision: Decision, spec: ToolSpec, n: nat, args: Args): CallResult {
    if decision == Deny then CallResult(Failed(PermissionDenied(ByPolicy)), None)
    else if decision == Ask && Asked(w, n, spec.name, args).ApprovalFails?
    then CallResult(Failed(Asked(w, n, spec.name, args).failure), None)
    else if decision == Ask && Asked(w, n, spec.name, args) != Granted then CallResult(Failed(PermissionDenied(NoApproval)), None)
    else match RunPreHooks(w.preHooks, n, spec.name, args)
      case Stop(f) => CallResult(Failed(f), None)
      case Go(given) =>
        CallResult(RunPostHooks(w.postHooks, n, spec.name, given, w.execute(n, spec, given)), Some(Invocation(n, spec, args, given)))
  }

  function Called(w: World, tools: map<Text, ToolSpec>, glob: Glob, policy: Policy, n: nat, name: Text, args: Args): CallResult
    requires name in tools ==> tools[name].name == name
  {
    if name !in tools then CallResult(Failed(PermissionDenied(UnknownTool)), None)
    else Decided(w, Decide(glob, policy, name), tools[name], n, args)
  }

  // ---- What a call comes to, hook by hook ----------------------------------------------

  /** The k-th hook is the first that has an opinion of the call. */
  ghost predicate FirstOpinion(w: World, n: nat, name: Text, args: Args, k: nat) {
    && k < |w.preHooks| && w.preHooks[k](n, name, args) != NoOpinion
    && forall j :: 0 <= j < k ==> w.preHooks[j](n, name, args) == NoOpinion
  }

  /** The hooks let the call through with these arguments: none has an opinion and they are the asked
      ones, or the first that has one rewrites them, or leaves them as asked. */
  ghost predicate HooksPass(w: World, n: nat, name: Text, asked: Args, given: Args) {
    || ((forall k :: 0 <= k < |w.preHooks| ==> w.preHooks[k](n, name, asked) == NoOpinion) && given == asked)
    || (exists k: nat :: FirstOpinion(w, n, name, asked, k)
                    && (w.preHooks[k](n, name, asked) == Rewrite(Some(given))
                        || (w.preHooks[k](n, name, asked) == Rewrite(None) && given == asked)))
  }

  /** The first hook with an opinion denies the call, or fails. */
  ghost predicate HooksStop(w: World, n: nat, name: Text, asked: Args, failure: Failure) {
    exists k: nat :: FirstOpinion(w, n, name, asked, k)
                && (w.preHooks[k](n, name, asked) == HookFails(failure)
                    || exists why :: w.preHooks[k](n, name, asked) == DenyCall(why) && failure == PermissionDenied(ByHook(why)))
  }

  /** `results` starts with the executor's outcome; each post-hook is applied once, in order, to the value
      of the one before, and a failure goes through the rest as it is. */
  ghost predicate PostHooked(hooks: seq<(nat, Text, Args, Value) -> Outcome>, n: nat, name: Text, given: Args, results: seq<Outcome>) {
    && |results| == |hooks| + 1
    && forall k :: 0 <= k < |hooks| ==>
         results[k + 1] == (if results[k].Failed? then results[k] else hooks[k](n, name, given, results[k].value))
  }

  /** The tool is registered, and allowed, or asked about and approved. */
  ghost predicate Permitted(w: World, tools: map<Text, ToolSpec>, glob: Glob, policy: Policy, n: nat, name: Text, asked: Args) {
    && name in tools
    && (Decide(glob, policy, name) == Allow
        || (Decide(glob, policy, name) == Ask && w.approval.Some? && w.approval.value(n, name, asked) == Granted))
  }

  /** The gate was open for this run: a permitted tool under its own name, with arguments the hooks let
      through. */
  ghost predicate GateOpen(w: World, tools: map<Text, ToolSpec>, glob: Glob, policy: Policy, i: Invocation) {
    && Permitted(w, tools, glob, policy, i.call, i.spec.name, i.asked) && tools[i.spec.name] == i.spec
    && HooksPass(w, i.call, i.spec.name, i.asked, i.given)
  }

  /** Why a call that is not permitted fails. */
  ghost predicate Refused(w: World, tools: map<Text, ToolSpec>, glob: Glob, policy: Policy, n: nat, name: Text, asked: Args, failure: Failure) {
    if name !in tools then failure == PermissionDenied(UnknownTool)
    else if Decide(glob, policy, name) == Deny then failure == PermissionDenied(ByPolicy)
    else
      && Decide(glob, policy, name) == Ask
      && (w.approval.None? || w.approval.value(n, name, asked) == Withheld ==> failure == PermissionDenied(NoApproval))
      && (w.approval.Some? && w.approval.value(n, name, asked).ApprovalFails? ==> failure == w.approval.value(n, name, asked).failure)
  }

  /** What a call comes to. Either it is not permitted, or a hook stops it, and then nothing runs and it
      fails for that reason; or the tool runs once with the arguments the hooks let through, and the
      outcome is that of the executor after all post-hooks. */
  ghost predicate Handled(w: World, tools: map<Text, ToolSpec>, glob: Glob, policy: Policy, n: nat, name: Text, asked: Args,
                          outcome: Outcome, ran: Option<Invocation>) {
    if !Permitted(w, tools, glob, policy, n, name, asked)
    then ran == None && outcome.Failed? && Refused(w, tools, glob, policy, n, name, asked, outcome.failure)
    else match ran
      case None => outcome.Failed? && HooksStop(w, n, name, asked, outcome.failure)
      case Some(i) =>
        && i == Invocation(n, tools[name], asked, i.given) && HooksPass(w, n, name, asked, i.given)
        && exists results :: PostHooked(w.postHooks, n, name, i.given, results)
                             && results[0] == w.execute(n, tools[name], i.given) && results[|w.postHooks|] == outcome
  }

  lemma {:induction false} HooksDecide(w: World, n: nat, name: Text, asked: Args, k: nat)
    requires k <= |w.preHooks| && forall j :: 0 <= j < k ==> w.preHooks[j](n, name, asked) == NoOpinion
    ensures var hooked := RunPreHooks(w.preHooks[k..], n, name, asked);
      && (hooked.Go? ==> HooksPass(w, n, name, asked, hooked.args))
      && (hooked.Stop? ==> HooksStop(w, n, name, asked, hooked.failure))
    decreases |w.preHooks| - k
  {
    if k < |w.preHooks| {
      assert w.preHooks[k..][0] == w.preHooks[k] && w.preHooks[k..][1..] == w.preHooks[k + 1..];
      if w.preHooks[k](n, name, asked) == NoOpinion {
        HooksDecide(w, n, name, asked, k + 1);
      } else {
        assert FirstOpinion(w, n, name, asked, k);
      }
    }
  }

  /** The hooks do not both pass and stop a call, and pass it with one list of arguments only. */
  lemma HooksAgree(w: World, n: nat, name: Text, asked: Args, given: Args, other: Args, failure: Failure)
    requires HooksPass(w, n, name, asked, given)
    ensures !HooksStop(w, n, name, asked, failure) && (HooksPass(w, n, name, asked, other) ==> other == given)
  {
    if exists k: nat :: FirstOpinion(w, n, name, asked, k) {
      var k: nat :| FirstOpinion(w, n, name, asked, k);
      forall j: nat | FirstOpinion(w, n, name, asked, j) ensures j == k {
      }
    }
  }

  lemma {:induction false} PostHooksDecide(hooks: seq<(nat, Text, Args, Value) -> Outcome>, n: nat, name: Text, given: Args, result: Outcome)
    returns (results: seq<Outcome>)
    ensures PostHooked(hooks, n, name, given, results)
    ensures results[0] == result && results[|hooks|] == RunPostHooks(hooks, n, name, given, result)
  {
    if hooks == [] {
      results := [result];
    } else {
      var next := if result.Failed? then result else hooks[0](n, name, given, result.value);
      var rest := PostHooksDecide(hooks[1..], n, name, given, next);
      results := [result] + rest;
      forall k | 0 <= k < |hooks|
        ensures results[k + 1] == (if results[k].Failed? then results[k] else hooks[k](n, name, given, results[k].value))
      {
        if k > 0 {
          assert hooks[1..][k - 1] == hooks[k] && rest[k - 1] == results[k] && rest[k] == results[k + 1];
        }
      }
      if result.Failed? {
        FailureStays(hooks[1..], n, name, given, rest);
      }
    }
  }

  lemma {:induction false} FailureStays(hooks: seq<(nat, Text, Args, Value) -> Outcome>, n: nat, name: Text, given: Args, results: seq<Outcome>)
    requires PostHooked(hooks, n, name, given, results) && results[0].Failed?
    ensures results[|hooks|] == results[0]
  {
    if hooks != [] {
      var m := |hooks| - 1;
      FailureStays(hooks[..m], n, name, given, results[..m + 1]);
    }
  }

  /** Every call is handled so. */
  lemma CalledIsHandled(w: World, tools: map<Text, ToolSpec>, glob: Glob, policy: Policy, n: nat, name: Text, args: Args)
    requires name in tools ==> tools[name].name == name
    ensures var r := Called(w, tools, glob, policy, n, name, args);
      Handled(w, tools, glob, policy, n, name, args, r.outcome, r.ran)
  {
    hide Decide, HooksPass, HooksStop, PostHooked, RunPreHooks, RunPostHooks;
    assert w.preHooks[0..] == w.preHooks;
    HooksDecide(w, n, name, args, 0);
    if name in tools {
      match RunPreHooks(w.preHooks, n, name, args)
      case Stop(_) =>
      case Go(given) =>
        var results := PostHooksDecide(w.postHooks, n, name, given, w.execute(n, tools[name], given));
    }
  }

  /** The executor runs if and only if the tool is permitted and the hooks let the call through, and then
      for the tool that was named, which the model can see, through an open gate. */
  lemma OnlyOpenGatesRun(w: World, tools: map<Text, ToolSpec>, glob: Glob, policy: Policy, n: nat, name: Text, args: Args)
    requires name in tools ==> tools[name].name == name
    ensures var r := Called(w, tools, glob, policy, n, name, args);
      && (r.ran.Some? <==> Permitted(w, tools, glob, policy, n, name, args) && exists given :: HooksPass(w, n, name, args, given))
      && (r.ran.Some? ==> r.ran.value.spec.name == name && r.ran.value.asked == args && GateOpen(w, tools, glob, policy, r.ran.value)
                          && IsVisible(tools, glob, policy, r.ran.value.spec))
  {
    hide Decide, HooksPass, HooksStop, Called, PostHooked;
    CalledIsHandled(w, tools, glob, policy, n, name, args);
    var r := Called(w, tools, glob, policy, n, name, args);
    if r.ran.None? && Permitted(w, tools, glob, policy, n, name, args) {
      forall given | HooksPass(w, n, name, args, given) ensures false {
        HooksAgree(w, n, name, args, given, given, r.outcome.failure);
      }
    }
  }

  /** With the same registry, hooks and approvals, whatever a combination of policies lets through each
      of its members lets through alone, with the same arguments and the same outcome. */
  lemma CombinationOnlyNarrows(w: World, tools: map<Text, ToolSpec>, glob: Glob, policies: seq<Policy>, k: nat, n: nat, name: Text, args: Args)
    requires k < |policies| && (name in tools ==> tools[name].name == name)
    requires Called(w, tools, glob, Combined(policies), n, name, args).ran.Some?
    ensures Called(w, tools, glob, policies[k], n, name, args) == Called(w, tools, glob, Combined(policies), n, name, args)
  {
    hide Decide;
    CombinedIsGreatestLowerBound(glob, policies, name);
    assert Le(Decide(glob, Combined(policies), name), Decide(glob, policies[k], name));
  }

  predicate DenialRaises(w: World, n: nat, name: Text) {
    w.denialHookRaises.Some? && w.denialHookRaises.value(n, name)
  }

  // ---- The harness ---------------------------------------------------------------------

  class Harness {
    const w: World
    const glob: Glob
    const policy: Policy
    const registry: ToolRegistry
    var calls: nat
    var denialHookErrors: nat
    ghost var invocations: seq<Invocation>

    /** Every executor run so far went through an open gate. */
    ghost predicate Valid()
      reads this, registry
    {
      registry.Valid() && forall i :: i in invocations ==> i.call < calls && GateOpen(w, registry.tools, glob, policy, i)
    }

    constructor (w: World, glob: Glob, policy: Policy, registry: ToolRegistry)
      requires registry.Valid()
      ensures Valid() && this.w == w && this.glob == glob && this.policy == policy && this.registry == registry
      ensures calls == 0 && invocations == []
    {
      this.w, this.glob, this.policy, this.registry := w, glob, policy, registry;
      calls, denialHookErrors, invocations := 0, 0, [];
    }

    /** Tell the denial hook; what it raises is counted and swallowed. */
    method NotifyDenial(n: nat, name: Text)
      modifies this`denialHookErrors
      ensures denialHookErrors == old(denialHookErrors)
        + (if DenialRaises(w, n, name) then 1 else 0)
    {
      if w.denialHookRaises.Some? && w.denialHookRaises.value(n, name) {
        denialHookErrors := denialHookErrors + 1;
      }
    }

    method PreHooks(n: nat, name: Text, args: Args) returns (hooked: Hooked)
      ensures hooked == RunPreHooks(w.preHooks, n, name, args)
    {
      hooked := Go(args);
      var k := 0;
      assert w.preHooks[0..] == w.preHooks;
      while k < |w.preHooks|
        invariant k <= |w.preHooks| && hooked == Go(args)
        invariant RunPreHooks(w.preHooks, n, name, args) == RunPreHooks(w.preHooks[k..], n, name, args)
      {
        assert w.preHooks[k..][1..] == w.preHooks[k + 1..];
        match w.preHooks[k](n, name, args) {
          case NoOpinion => k := k + 1;
          case DenyCall(why) => return Stop(PermissionDenied(ByHook(why)));
          case Rewrite(new_) => return Go(if new_.Some? then new_.value else args);
          case HookFails(f) => return Stop(f);
        }
      }
    }

    method PostHooks(n: nat, name: Text, args: Args, result: Outcome) returns (outcome: Outcome)
      ensures outcome == RunPostHooks(w.postHooks, n, name, args, result)
    {
      outcome := result;
      var k := 0;
      assert w.postHooks[0..] == w.postHooks;
      while k < |w.postHooks| && outcome.Returned?
        invariant k <= |w.postHooks|
        invariant RunPostHooks(w.postHooks, n, name, args, result) == RunPostHooks(w.postHooks[k..], n, name, args, outcome)
      {
        assert w.postHooks[k..][1..] == w.postHooks[k + 1..];
        outcome := w.postHooks[k](n, name, args, outcome.value);
        k := k + 1;
      }
    }

    method Call(name: Text, asked: Args) returns (outcome: Outcome)
      requires Valid()
      modifies this
      ensures Valid() && calls == old(calls) + 1
      ensures var r := Called(w, registry.tools, glob, policy, old(calls), name, asked);
        && outcome == r.outcome && invocations == old(invocations) + (if r.ran.Some? then [r.ran.value] else [])
        && Handled(w, registry.tools, glob, policy, old(calls), name, asked, outcome, r.ran)
      ensures denialHookErrors == old(denialHookErrors)
        + (if name in registry.tools && Decide(glob, policy, name) == Deny && DenialRaises(w, old(calls), name) then 1 else 0)
    {
      hide Decide, IsVisible, RunPreHooks, RunPostHooks, Handled, GateOpen, HooksPass;
      var n := calls;
      calls := calls + 1;
      CalledIsHandled(w, registry.tools, glob, policy, n, name, asked);
      OnlyOpenGatesRun(w, registry.tools, glob, policy, n, name, asked);
      var spec := registry.Find(name);
      if spec.None? {
        return Failed(PermissionDenied(UnknownTool));
      }
      var decision := Decide(glob, policy, name);
      if decision == Deny {
        NotifyDenial(n, name);
        return Failed(PermissionDenied(ByPolicy));
      }
      if decision == Ask {
        var answer := if w.approval.Some? then w.approval.value(n, name, asked) else Withheld;
        if answer.ApprovalFails? {
          return Failed(answer.failure);
        }
        if answer != Granted {
          return Failed(PermissionDenied(NoApproval));
        }
      }
      var hooked := PreHooks(n, name, asked);
      if hooked.Stop? {
        return Failed(hooked.failure);
      }
      var result := w.execute(n, spec.value, hooked.args);
      invocations := invocations + [Invocation(n, spec.value, asked, hooked.args)];
      outcome := PostHooks(n, name, hooked.args, result);
    }
  }
}

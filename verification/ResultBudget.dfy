/**
 Running every simulation of a design under one budget of result bytes.

 A small failure result is set aside for every bundle before anything runs.  A real
 result is recorded only if it leaves room for the failure results still to come; the
 first one that does not exhausts the budget for good.
*/
module ResultBudget {
  import opened Wrappers

  const USIZE_MAX: nat := 0xFFFF_FFFF_FFFF_FFFF

  const CHECK_RESOURCE: string := "CC-SIM-CHECK-003"
  const CHECK_INTERNAL: string := "CC-SIM-CHECK-004"
  const CHECK_RESOURCE_MESSAGE: string := "aggregate normalized simulation results exceeded the 64 MiB checked-compilation budget"
  const CHECK_INTERNAL_RESULT_MESSAGE: string := "checked simulation result did not satisfy its authenticated contract"
  const NON_CANONICAL_MESSAGE: string := "simulator adapter produced a non-canonical normalized result"

  datatype Bundle = Bundle(analysisPath: string, requestJson: string, mapJson: string)

  datatype SimulationResult = SimulationResult(analysisPath: string, completed: bool, code: string)

  /** A result with its canonical text. */
  datatype Candidate = Candidate(result: SimulationResult, json: string)

  datatype ContractError = ContractError(code: string, message: string)

  datatype Evaluation = Evaluation(checkedSuccess: bool, findings: seq<string>)

  datatype CompiledSimulation = CompiledSimulation(bundle: Bundle, recorded: Candidate, evaluation: Evaluation)

  datatype Outcome =
    | Checked(simulations: seq<CompiledSimulation>)
    | Rejected(simulations: seq<CompiledSimulation>, diagnostics: seq<string>)
    | Internal(simulations: seq<CompiledSimulation>)

  /** The parts of the compiler that are arbitrary here. */
  datatype Host = Host(
    failure: (Bundle, string, string) -> Option<Candidate>,
    canonical: SimulationResult -> Option<string>,
    evaluate: (Bundle, string) -> Option<Evaluation>,
    diagnose: (SimulationResult, Evaluation) -> seq<string>)
  {
    /** Failure results can always be made, and always be evaluated. */
    ghost predicate Reliable() {
      forall b, c, m :: failure(b, c, m).Some? && evaluate(b, failure(b, c, m).value.json).Some?
    }
  }

  /** What an execution amounts to: its result if that has a canonical text, and else a failure. */
  ghost predicate IsExecuted(host: Host, bundle: Bundle, executed: Result<SimulationResult, ContractError>,
                             c: Candidate) {
    match executed
    case Failure(error) => host.failure(bundle, error.code, error.message) == Some(c)
    case Success(result) =>
      match host.canonical(result)
      case Some(json) => c == Candidate(result, json)
      case None => host.failure(bundle, "CC-SIM-CHECK-004", NON_CANONICAL_MESSAGE) == Some(c)
  }

  /** The result that is set aside for a bundle. */
  ghost predicate IsResource(host: Host, bundle: Bundle, c: Candidate) {
    host.failure(bundle, "CC-SIM-CHECK-003", CHECK_RESOURCE_MESSAGE) == Some(c)
  }

  /** The result of a bundle whose own result cannot be evaluated. */
  ghost predicate IsFallback(host: Host, bundle: Bundle, c: Candidate) {
    host.failure(bundle, "CC-SIM-CHECK-004", CHECK_INTERNAL_RESULT_MESSAGE) == Some(c)
  }

  /** Runs a simulation, with any outcome at all, and remembers what it was asked. */
  class Executor {
    var calls: seq<Bundle>
    ghost var results: seq<Result<SimulationResult, ContractError>>

    constructor ()
      ensures calls == [] && results == []
    {
      calls, results := [], [];
    }

    method Execute(bundle: Bundle) returns (r: Result<SimulationResult, ContractError>)
      modifies this
      ensures calls == old(calls) + [bundle] && results == old(results) + [r]
    {
      r := *;
      calls, results := calls + [bundle], results + [r];
    }
  }

  function ResourceBytes(resources: seq<Candidate>): nat {
    if resources == [] then 0 else |resources[0].json| + ResourceBytes(resources[1..])
  }

  function RecordedBytes(simulations: seq<CompiledSimulation>): nat {
    if simulations == [] then 0
    else RecordedBytes(simulations[..|simulations| - 1]) + |simulations[|simulations| - 1].recorded.json|
  }

  function CheckedAdd(a: nat, b: nat): Option<nat> {
    if a + b > USIZE_MAX then None else Some(a + b)
  }

  /** The candidate, or the failure result if the candidate takes too much; once exhausted, always the failure result. */
  method SelectResultWithBudget(candidate: Candidate, resource: Candidate, resultBytes: nat, remaining: nat, limit: nat,
                                exhausted: bool) returns (selected: Candidate, nowExhausted: bool)
    requires limit <= USIZE_MAX
    ensures nowExhausted <==> exhausted || resultBytes + |candidate.json| + remaining > limit
    ensures selected == if nowExhausted then resource else candidate
  {
    if exhausted {
      return resource, true;
    }
    var projected := CheckedAdd(resultBytes, |candidate.json|);
    if projected.Some? {
      projected := CheckedAdd(projected.value, remaining);
    }
    if projected.None? || projected.value > limit {
      return resource, true;
    }
    return candidate, false;
  }

  // --- What a run must look like ----------------------------------------------

  /** What one step records, when so many bytes are taken and so many are set aside for later. */
  ghost predicate StepMeans(host: Host, bundle: Bundle, executed: Result<SimulationResult, ContractError>,
                            resource: Candidate, taken: nat, remaining: nat, limit: nat, before: bool, after: bool,
                            recorded: Candidate) {
    var fits := (c: Candidate) => taken + |c.json| + remaining <= limit;
    if before then after && recorded == resource
    else
      exists candidate ::
        && IsExecuted(host, bundle, executed, candidate)
        && if !fits(candidate) then after && recorded == resource
           else if host.evaluate(bundle, candidate.json).Some? then !after && recorded == candidate
           else
             exists fallback ::
               && IsFallback(host, bundle, fallback)
               && if fits(fallback) then !after && recorded == fallback
                  else after && recorded == resource
  }

  /**
   The i-th simulation is about the i-th bundle and was evaluated; what it records is
   what the budget allowed at that point.  `spent` is the first exhausted step.
  */
  ghost predicate RunMeans(host: Host, bundles: seq<Bundle>, executed: seq<Result<SimulationResult, ContractError>>,
                           resources: seq<Candidate>, limit: nat, spent: nat, simulations: seq<CompiledSimulation>)
    requires |resources| == |bundles| && |simulations| <= |bundles| && |simulations| <= |executed|
  {
    forall i {:trigger simulations[i]} | 0 <= i < |simulations| ::
      && simulations[i].bundle == bundles[i]
      && host.evaluate(bundles[i], simulations[i].recorded.json) == Some(simulations[i].evaluation)
      && StepMeans(host, bundles[i], executed[i], resources[i], RecordedBytes(simulations[..i]),
                   ResourceBytes(resources[i + 1..]), limit, spent < i, spent <= i, simulations[i].recorded)
  }

  /** Exhaustion is sticky: from the exhausted step on, every result is the one set aside. */
  lemma {:induction false} ExhaustionIsSticky(host: Host, bundles: seq<Bundle>,
                           executed: seq<Result<SimulationResult, ContractError>>, resources: seq<Candidate>,
                           limit: nat, spent: nat, simulations: seq<CompiledSimulation>, i: nat)
    requires |resources| == |bundles| && |simulations| <= |bundles| && |simulations| <= |executed|
    requires RunMeans(host, bundles, executed, resources, limit, spent, simulations) && i < |simulations|
    ensures spent <= i ==> simulations[i].recorded == resources[i]
    ensures i < spent ==>
              RecordedBytes(simulations[..i]) + |simulations[i].recorded.json| + ResourceBytes(resources[i + 1..]) <= limit
  {
    var s := simulations[i];
    assert s.bundle == bundles[i];
  }

  /** The failure results still set aside always fit on top of what is recorded. */
  lemma {:induction false} BudgetHolds(host: Host, bundles: seq<Bundle>,
                                       executed: seq<Result<SimulationResult, ContractError>>,
                                       resources: seq<Candidate>, limit: nat, spent: nat,
                                       simulations: seq<CompiledSimulation>, n: nat)
    requires |resources| == |bundles| && |simulations| <= |bundles| && |simulations| <= |executed|
    requires RunMeans(host, bundles, executed, resources, limit, spent, simulations) && n <= |simulations|
    ensures RecordedBytes(simulations[..n]) + ResourceBytes(resources[n..]) <= Max(limit, ResourceBytes(resources))
  {
    if n == 0 {
      assert resources[0..] == resources;
    } else {
      BudgetHolds(host, bundles, executed, resources, limit, spent, simulations, n - 1);
      ExhaustionIsSticky(host, bundles, executed, resources, limit, spent, simulations, n - 1);
      OneMoreCounted(simulations, resources, n);
      hide RecordedBytes, ResourceBytes;
    }
  }

  lemma OneMoreCounted(simulations: seq<CompiledSimulation>, resources: seq<Candidate>, n: nat)
    requires 0 < n <= |simulations| && n <= |resources|
    ensures RecordedBytes(simulations[..n]) == RecordedBytes(simulations[..n - 1]) + |simulations[n - 1].recorded.json|
    ensures ResourceBytes(resources[n - 1..]) == |resources[n - 1].json| + ResourceBytes(resources[n..])
  {
    assert simulations[..n][..n - 1] == simulations[..n - 1];
    assert resources[n - 1..][1..] == resources[n..];
  }

  /** The whole run takes no more than the limit, provided that the failure results alone fit. */
  lemma {:induction false} TotalIsBounded(host: Host, bundles: seq<Bundle>, executed: seq<Result<SimulationResult, ContractError>>,
                       resources: seq<Candidate>, limit: nat, spent: nat, simulations: seq<CompiledSimulation>)
    requires |resources| == |bundles| == |simulations| && |simulations| <= |executed|
    requires RunMeans(host, bundles, executed, resources, limit, spent, simulations)
    ensures RecordedBytes(simulations) <= Max(limit, ResourceBytes(resources))
    ensures ResourceBytes(resources) <= limit ==> RecordedBytes(simulations) <= limit
  {
    BudgetHolds(host, bundles, executed, resources, limit, spent, simulations, |simulations|);
    assert simulations[..|simulations|] == simulations;
  }

  lemma {:induction false} ResourceSuffix(resources: seq<Candidate>, i: nat)
    requires i < |resources|
    ensures ResourceBytes(resources[i..]) == |resources[i].json| + ResourceBytes(resources[i + 1..])
    ensures ResourceBytes(resources[i..]) <= ResourceBytes(resources)
  {
    assert resources[i..][1..] == resources[i + 1..];
    if i > 0 {
      ResourceSuffix(resources, i - 1);
    } else {
      assert resources[0..] == resources;
    }
  }

  // --- The run ----------------------------------------------------------------

  /** The failure results for all bundles. */
  ghost predicate ResourcesFor(host: Host, bundles: seq<Bundle>, resources: seq<Candidate>) {
    |resources| == |bundles| && forall i | 0 <= i < |bundles| :: IsResource(host, bundles[i], resources[i])
  }

  method SetAside(host: Host, bundles: seq<Bundle>) returns (resources: Option<seq<Candidate>>)
    ensures resources.Some? ==> ResourcesFor(host, bundles, resources.value)
    ensures resources.None? ==> !host.Reliable()
  {
    var made: seq<Candidate> := [];
    for index := 0 to |bundles|
      invariant |made| == index && forall i | 0 <= i < index :: IsResource(host, bundles[i], made[i])
    {
      var resource := host.failure(bundles[index], CHECK_RESOURCE, CHECK_RESOURCE_MESSAGE);
      if resource.None? {
        return None;
      }
      made := made + [resource.value];
    }
    resources := Some(made);
  }

  method SumBytes(resources: seq<Candidate>) returns (total: Option<nat>)
    ensures total == if ResourceBytes(resources) <= USIZE_MAX then Some(ResourceBytes(resources)) else None
  {
    var sum := 0;
    for index := 0 to |resources|
      invariant sum <= USIZE_MAX && sum + ResourceBytes(resources[index..]) == ResourceBytes(resources)
    {
      ResourceSuffix(resources, index);
      var next := CheckedAdd(sum, |resources[index].json|);
      if next.None? {
        return None;
      }
      sum := next.value;
    }
    total := Some(sum);
  }

  /** The executed result with its canonical text, or a failure result. */
  method CanonicalExecuted(host: Host, bundle: Bundle, executed: Result<SimulationResult, ContractError>)
    returns (r: Option<Candidate>)
    ensures r.Some? ==> IsExecuted(host, bundle, executed, r.value)
    ensures r.None? ==> !host.Reliable()
  {
    match executed {
      case Failure(error) =>
        r := host.failure(bundle, error.code, error.message);
      case Success(result) =>
        var json := host.canonical(result);
        if json.Some? {
          return Some(Candidate(result, json.value));
        }
        r := host.failure(bundle, CHECK_INTERNAL, NON_CANONICAL_MESSAGE);
    }
  }

  /** One bundle: execute, choose, evaluate; if it cannot be evaluated, choose again with a failure result. */
  method RunOne(host: Host, executor: Executor, bundle: Bundle, resource: Candidate, taken: nat, remaining: nat,
                limit: nat, exhausted: bool)
    returns (simulation: Option<CompiledSimulation>, nowExhausted: bool)
    requires limit <= USIZE_MAX && IsResource(host, bundle, resource)
    modifies executor
    ensures executor.calls == old(executor.calls) + [bundle]
    ensures |executor.results| == |old(executor.results)| + 1 && old(executor.results) < executor.results
    ensures exhausted ==> nowExhausted
    ensures simulation.Some? ==>
              && simulation.value.bundle == bundle
              && host.evaluate(bundle, simulation.value.recorded.json) == Some(simulation.value.evaluation)
              && StepMeans(host, bundle, executor.results[|executor.results| - 1], resource, taken, remaining, limit,
                           exhausted, nowExhausted, simulation.value.recorded)
    ensures simulation.None? ==> !host.Reliable()
  {
    nowExhausted := exhausted;
    var executed := executor.Execute(bundle);
    var candidate := resource;
    if !exhausted {
      var canonical := CanonicalExecuted(host, bundle, executed);
      if canonical.None? {
        return None, nowExhausted;
      }
      candidate := canonical.value;
    }
    var recorded;
    ghost var failed: Option<Candidate> := None;
    recorded, nowExhausted := SelectResultWithBudget(candidate, resource, taken, remaining, limit, exhausted);
    var evaluation := host.evaluate(bundle, recorded.json);
    if evaluation.None? {
      var fallback := host.failure(bundle, CHECK_INTERNAL, CHECK_INTERNAL_RESULT_MESSAGE);
      if fallback.None? {
        return None, nowExhausted;
      }
      failed := fallback;
      recorded, nowExhausted :=
        SelectResultWithBudget(fallback.value, resource, taken, remaining, limit, nowExhausted);
      evaluation := host.evaluate(bundle, recorded.json);
      if evaluation.None? {
        return None, nowExhausted;
      }
    }
    simulation := Some(CompiledSimulation(bundle, recorded, evaluation.value));
    assert !exhausted ==> IsExecuted(host, bundle, executed, candidate);
    assert failed.Some? ==> IsFallback(host, bundle, failed.value);
  }

  lemma ResourcesCover(host: Host, bundles: seq<Bundle>, resources: seq<Candidate>)
    requires ResourcesFor(host, bundles, resources)
    ensures |resources| == |bundles|
  {
  }

  lemma ResourceAt(host: Host, bundles: seq<Bundle>, resources: seq<Candidate>, i: nat)
    requires ResourcesFor(host, bundles, resources) && i < |bundles|
    ensures |resources| == |bundles| && IsResource(host, bundles[i], resources[i])
  {
  }

  lemma NoBytes()
    ensures RecordedBytes([]) == 0 && forall host :: Diagnoses(host, []) == []
  {
  }

  function Simulations(o: Outcome): seq<CompiledSimulation> {
    o.simulations
  }

  /** What all simulations are reported for, in order. */
  ghost function Diagnoses(host: Host, simulations: seq<CompiledSimulation>): seq<string> {
    if simulations == [] then []
    else
      var last := simulations[|simulations| - 1];
      Diagnoses(host, simulations[..|simulations| - 1]) + host.diagnose(last.recorded.result, last.evaluation)
  }

  predicate AllPassed(host: Host, simulations: seq<CompiledSimulation>) {
    forall s | s in simulations ::
      s.evaluation.checkedSuccess && host.diagnose(s.recorded.result, s.evaluation) == []
  }

  /** A run may stop early only for an unreliable host, or when the failure results alone exceed the address space. */
  ghost predicate Excused(host: Host, bundles: seq<Bundle>, resources: seq<Candidate>) {
    host.Reliable() ==> ResourcesFor(host, bundles, resources) && ResourceBytes(resources) > USIZE_MAX
  }

  lemma {:induction false} RunExtended(host: Host, bundles: seq<Bundle>, executed: seq<Result<SimulationResult, ContractError>>,
                    more: seq<Result<SimulationResult, ContractError>>, resources: seq<Candidate>, limit: nat,
                    spent: nat, now: nat, simulations: seq<CompiledSimulation>, s: CompiledSimulation)
    requires |resources| == |bundles| && |simulations| < |bundles| && |simulations| == |executed|
    requires executed < more && RunMeans(host, bundles, executed, resources, limit, spent, simulations)
    requires now == spent || (|simulations| <= spent && now == |simulations|)
    requires var n := |simulations|;
             && s.bundle == bundles[n] && host.evaluate(bundles[n], s.recorded.json) == Some(s.evaluation)
             && StepMeans(host, bundles[n], more[n], resources[n], RecordedBytes(simulations),
                          ResourceBytes(resources[n + 1..]), limit, now < n, now <= n, s.recorded)
    ensures RunMeans(host, bundles, more, resources, limit, now, simulations + [s])
    ensures RecordedBytes(simulations + [s]) == RecordedBytes(simulations) + |s.recorded.json|
    ensures AllPassed(host, simulations + [s]) <==>
            AllPassed(host, simulations) && s.evaluation.checkedSuccess
            && host.diagnose(s.recorded.result, s.evaluation) == []
    ensures Diagnoses(host, simulations + [s])
         == Diagnoses(host, simulations) + host.diagnose(s.recorded.result, s.evaluation)
  {
    hide StepMeans, RecordedBytes, AllPassed, ResourceBytes, Diagnoses;
    PassedAndCounted(host, simulations, s);
    var all := simulations + [s];
    assert all[..|simulations|] == simulations;
    forall i {:trigger all[i]} | 0 <= i < |all|
      ensures all[i].bundle == bundles[i]
      ensures host.evaluate(bundles[i], all[i].recorded.json) == Some(all[i].evaluation)
      ensures StepMeans(host, bundles[i], more[i], resources[i], RecordedBytes(all[..i]), ResourceBytes(resources[i + 1..]),
                        limit, now < i, now <= i, all[i].recorded)
    {
      if i < |simulations| {
        assert all[i] == simulations[i] && more[i] == executed[i] && all[..i] == simulations[..i];
      }
    }
  }

  lemma PassedAndCounted(host: Host, simulations: seq<CompiledSimulation>, s: CompiledSimulation)
    ensures RecordedBytes(simulations + [s]) == RecordedBytes(simulations) + |s.recorded.json|
    ensures AllPassed(host, simulations + [s]) <==>
            AllPassed(host, simulations) && s.evaluation.checkedSuccess
            && host.diagnose(s.recorded.result, s.evaluation) == []
    ensures Diagnoses(host, simulations + [s])
         == Diagnoses(host, simulations) + host.diagnose(s.recorded.result, s.evaluation)
  {
    assert (simulations + [s])[..|simulations|] == simulations;
  }

  lemma NothingRun(host: Host, bundles: seq<Bundle>, executed: seq<Result<SimulationResult, ContractError>>,
                   resources: seq<Candidate>, limit: nat, spent: nat)
    requires |resources| == |bundles|
    ensures RunMeans(host, bundles, executed, resources, limit, spent, []) && AllPassed(host, [])
  {
  }

  /**
   Runs all bundles.  A run that is not stopped by an internal error executes every
   bundle once, in order, records one result for each, and stays within the budget.
  */
  method Run(host: Host, executor: Executor, bundles: seq<Bundle>, limit: nat)
    returns (outcome: Outcome, ghost resources: seq<Candidate>, ghost spent: nat)
    requires limit <= USIZE_MAX && executor.calls == [] && executor.results == []
    modifies executor
    ensures executor.calls <= bundles && |executor.calls| == |executor.results|
    ensures outcome.Internal? ==>
              |Simulations(outcome)| <= |executor.calls| && Excused(host, bundles, resources)
    ensures !outcome.Internal? ==>
              && executor.calls == bundles && |Simulations(outcome)| == |bundles|
              && ResourcesFor(host, bundles, resources)
              && RunMeans(host, bundles, executor.results, resources, limit, spent, Simulations(outcome))
              && RecordedBytes(Simulations(outcome)) <= Max(limit, ResourceBytes(resources))
    ensures outcome.Checked? ==> AllPassed(host, outcome.simulations)
    ensures outcome.Rejected? ==>
              !AllPassed(host, outcome.simulations) && outcome.diagnostics == Diagnoses(host, outcome.simulations)
  {
    hide RunMeans, StepMeans, AllPassed, ResourceBytes, RecordedBytes, ResourcesFor, Host.Reliable, Diagnoses;
    resources, spent := [], |bundles|;
    var setAside := SetAside(host, bundles);
    if setAside.None? {
      return Internal([]), resources, spent;
    }
    resources := setAside.value;
    var total := SumBytes(setAside.value);
    if total.None? {
      return Internal([]), resources, spent;
    }
    var remaining := total.value;
    var simulations: seq<CompiledSimulation> := [];
    var resultBytes := 0;
    var exhausted, allChecked := false, true;
    var diagnostics: seq<string> := [];
    assert resources[0..] == resources && bundles[..0] == [];
    ResourcesCover(host, bundles, resources);
    NothingRun(host, bundles, executor.results, resources, limit, spent);
    NoBytes();
    for index := 0 to |bundles|
      invariant |simulations| == index == |executor.results| && executor.calls == bundles[..index]
      invariant RunMeans(host, bundles, executor.results, resources, limit, spent, simulations)
      invariant exhausted <==> spent < index
      invariant !exhausted ==> spent == |bundles|
      invariant resultBytes == RecordedBytes(simulations) && remaining == ResourceBytes(resources[index..])
      invariant allChecked && diagnostics == [] <==> AllPassed(host, simulations)
      invariant diagnostics == Diagnoses(host, simulations)
    {
      ResourceSuffix(resources, index);
      remaining := remaining - |setAside.value[index].json|;
      ghost var before := executor.results;
      ResourceAt(host, bundles, resources, index);
      var simulation, nowExhausted :=
        RunOne(host, executor, bundles[index], setAside.value[index], resultBytes, remaining, limit, exhausted);
      if simulation.None? {
        return Internal(simulations), resources, spent;
      }
      var s := simulation.value;
      ghost var now := if nowExhausted && !exhausted then index else spent;
      RunExtended(host, bundles, before, executor.results, resources, limit, spent, now, simulations, s);
      spent, exhausted := now, nowExhausted;
      simulations := simulations + [s];
      BudgetHolds(host, bundles, executor.results, resources, limit, spent, simulations, index + 1);
      assert simulations[..index + 1] == simulations;
      var sum := CheckedAdd(resultBytes, |s.recorded.json|);
      if sum.None? {
        assert false;
      }
      resultBytes := sum.value;
      allChecked := allChecked && s.evaluation.checkedSuccess;
      diagnostics := diagnostics + host.diagnose(s.recorded.result, s.evaluation);
    }
    TotalIsBounded(host, bundles, executor.results, resources, limit, spent, simulations);
    if allChecked && diagnostics == [] {
      outcome := Checked(simulations);
    } else {
      outcome := Rejected(simulations, diagnostics);
    }
  }
}

/** One-use execution of an authorized handoff (connector/execution.py). */
module Execution {
  import opened Prelude
  import opened Errors
  import opened Records
  import opened Receipts
  import opened Normalized

  datatype Binding = Binding(scope: Scope, backend: BackendIdentity)

  /** a registry row's key */
  datatype Operation = Operation(source: string, operation: string)

  function KeyOf(b: Binding): Operation {
    Operation(b.scope.source, b.scope.operation)
  }

  predicate Distinct(bindings: seq<Binding>) {
    forall i, j | 0 <= i < j < |bindings| :: KeyOf(bindings[i]) != KeyOf(bindings[j])
  }

  /** ConnectorExecutionComposition.__init__: a duplicate operation is refused, and otherwise the
      registry holds exactly the given bindings. */
  method Compose(bindings: seq<Binding>) returns (registry: Option<map<Operation, Binding>>)
    ensures registry.Some? <==> Distinct(bindings)
    ensures registry.Some? ==>
              && (forall b | b in bindings :: KeyOf(b) in registry.value && registry.value[KeyOf(b)] == b)
              && (forall k | k in registry.value :: registry.value[k] in bindings && KeyOf(registry.value[k]) == k)
  {
    var selected: map<Operation, Binding> := map[];
    for i := 0 to |bindings|
      invariant Distinct(bindings[..i])
      invariant forall j | 0 <= j < i :: KeyOf(bindings[j]) in selected && selected[KeyOf(bindings[j])] == bindings[j]
      invariant forall k | k in selected :: selected[k] in bindings[..i] && KeyOf(selected[k]) == k
    {
      var key := KeyOf(bindings[i]);
      if key in selected {
        var j :| 0 <= j < i && bindings[..i][j] == selected[key];
        assert KeyOf(bindings[j]) == KeyOf(bindings[i]);
        return None;
      }
      selected := selected[key := bindings[i]];
      assert bindings[..i + 1] == bindings[..i] + [bindings[i]];
    }
    return Some(selected);
  }

  /** what the injected executor did, when it was started */
  datatype Produced = Returned(result: OperationResult) | TimedOut | Failed(code: ErrorCode) | Invalid | Crashed

  /** prepare: a binding whose scope is not the authorized one is never started */
  function Preparation(registry: map<Operation, Binding>, source: string, operation: string, authorized: Scope)
    : (p: (Option<Binding>, Option<ErrorCode>))
    ensures p.1.None? <==> p.0.Some? && p.0.value.scope == authorized
    ensures p.0.Some? ==>
              Operation(source, operation) in registry && p.0.value == registry[Operation(source, operation)]
    ensures Operation(source, operation) !in registry <==> p.1 == Some(BackendUnbound)
    ensures p.1.Some? ==> p.1 == Some(BackendUnbound) || p.1 == Some(ConnectorStateInvalid)
  {
    var key := Operation(source, operation);
    if key !in registry then (None, Some(BackendUnbound))
    else if registry[key].scope != authorized then (None, Some(ConnectorStateInvalid))
    else (Some(registry[key]), None)
  }

  /** the failure that ends an execution whose executor did this; None when the result is returned */
  function EndOf(k: Contract, b: Binding, produced: Produced): Reply<OperationResult> {
    match produced
    case Returned(result) =>
      var bounds := k.bounds(b.scope.source, b.scope.operation);
      if bounds.None? || !Bounded(bounds.value, result) || k.resultDigest(result).None? then Rejected else Done(result)
    case TimedOut => Raised(ConnectorDeadlineExceeded)
    case Failed(code) => Raised(code)
    case Invalid => Rejected
    case Crashed => Raised(ConnectorStateInvalid)
  }

  class PreparedConnectorExecution {
    const contract: Contract
    const binding: Option<Binding>
    const failure: Option<ErrorCode>
    var used: bool
    /** executor starts and cleanups so far */
    var starts: nat
    var cleanups: nat

    ghost predicate Valid()
      reads this
    {
      && (failure.None? ==> binding.Some?)
      && starts <= 1 && cleanups <= starts
      && (!used ==> starts == 0)
    }

    constructor (contract: Contract, binding: Option<Binding>, failure: Option<ErrorCode>)
      requires failure.None? ==> binding.Some?
      ensures Valid() && !used && starts == 0
      ensures this.contract == contract && this.binding == binding && this.failure == failure
    {
      this.contract, this.binding, this.failure := contract, binding, failure;
      used, starts, cleanups := false, 0, 0;
    }

    /** abandoning a preparation: it can never start afterwards */
    method Close()
      requires Valid()
      modifies this`used
      ensures Valid() && used
    {
      used := true;
    }

    /** Over any sequence of Execute and Close calls the executor starts at most once; a result is
        returned only from that start and only inside the operation's bounds, and every start that
        returns none is cleaned up. `produced` is what the executor does if it is started. */
    method Execute(produced: Produced) returns (r: Reply<OperationResult>)
      requires Valid()
      modifies this`used, this`starts, this`cleanups
      ensures Valid() && used
      ensures starts == old(starts) + (if !old(used) && failure.None? then 1 else 0)
      ensures if old(used) then r == Raised(BackendUnbound)
              else if failure.Some? then r == Raised(failure.value)
              else
                match produced
                case Returned(result) =>
                  var bounds := contract.bounds(binding.value.scope.source, binding.value.scope.operation);
                  r == if bounds.Some? && |result.items| <= bounds.value.maximumItems
                          && ResultCharacters(result.items) <= bounds.value.maximumCharacters
                          && contract.resultDigest(result).Some?
                       then Done(result) else Rejected
                case TimedOut => r == Raised(ConnectorDeadlineExceeded)
                case Failed(code) => r == Raised(code)
                case Invalid => r == Rejected
                case Crashed => r == Raised(ConnectorStateInvalid)
      ensures r.Done? ==> starts == 1
      ensures cleanups - old(cleanups) == if starts > old(starts) && !r.Done? then 1 else 0
    {
      if used { return Raised(BackendUnbound); }
      used := true;
      if failure.Some? { return Raised(failure.value); }
      starts := starts + 1;
      r := EndOf(contract, binding.value, produced);
      if !r.Done? { cleanups := cleanups + 1; }
    }
  }
}

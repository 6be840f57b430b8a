/**
 A small model of the Ruby code the instrumentation hooks are made of: calls
 into the agent's span recorder and transaction manager, the call of the
 job's block, sequencing, `begin ... ensure ... end`, and the span wrapper of
 `trace_execution_scoped`.

 Running a statement records the calls it makes, in order, as a trace of
 effects, and ends with the Ruby value of the last expression evaluated or
 with the error the block raised. The agent's calls are foreign code. The
 transaction calls are recorded, assumed to return normally, and their values
 are not tracked. The span wrapper `trace_execution_scoped` is assumed to
 record its span and then return the value of its block, or re-raise the
 error its block raised. Only the block raises.
 */
module Execution {

  /** The transaction kind passed to `Transaction.start` (`:other`). */
  datatype TransactionKind = Other

  /** One recorded call. */
  datatype Effect =
    | Span(name: string, inner: seq<Effect>)          // trace_execution_scoped around `inner`
    | SetDefaultName(suffix: string, category: string) // Transaction.set_default_transaction_name
    | Start(kind: TransactionKind, name: string)      // Transaction.start
    | Call                                            // block.call
    | Stop                                            // Transaction.stop

  /** How the block, or a statement, ends: with a value or with a raised error. */
  datatype Outcome<+V, +E> = Ok(value: V) | Raised(error: E)

  /**
   A Ruby value: one the block returned, or one returned by an agent call,
   which the model does not track.
   */
  datatype Value<+V> = Untracked | FromBlock(v: V)

  /** The effects a statement recorded and how it ended. */
  datatype Run<+V, +E> = Run(effects: seq<Effect>, outcome: Outcome<Value<V>, E>)

  /** The statements the hooks are written with. */
  datatype Stmt =
    | Emit(effect: Effect)                  // one agent call
    | CallBlock                             // block.call
    | Seq(first: Stmt, rest: Stmt)          // first; rest
    | Ensure(body: Stmt, cleanup: Stmt)     // begin body ensure cleanup end
    | Traced(name: string, body: Stmt)      // trace_execution_scoped(name) { body }

  /** The block's outcome as a Ruby value. */
  function Lift<V, E>(block: Outcome<V, E>): (o: Outcome<Value<V>, E>)
    ensures o.Ok? <==> block.Ok?
    ensures block.Ok? ==> o.value == FromBlock(block.value)
    ensures block.Raised? ==> o.error == block.error
  {
    match block
    case Ok(v) => Ok(FromBlock(v))
    case Raised(e) => Raised(e)
  }

  /**
   Runs `p` with a block that ends with `block` each time it is called.
   A raised error skips the rest of a sequence, still runs an `ensure`
   clause (an error raised there would replace it), and passes out of a
   span after the span has recorded what ran inside it.
   */
  function Exec<V, E>(p: Stmt, block: Outcome<V, E>): Run<V, E>
  {
    match p
    case Emit(e) => Run([e], Ok(Untracked))
    case CallBlock => Run([Call], Lift(block))
    case Seq(first, rest) =>
      var r1 := Exec(first, block);
      if r1.outcome.Raised? then r1
      else
        var r2 := Exec(rest, block);
        Run(r1.effects + r2.effects, r2.outcome)
    case Ensure(body, cleanup) =>
      var rb := Exec(body, block);
      var rc := Exec(cleanup, block);
      Run(rb.effects + rc.effects, if rc.outcome.Raised? then rc.outcome else rb.outcome)
    case Traced(name, body) =>
      var rb := Exec(body, block);
      Run([Span(name, rb.effects)], rb.outcome)
  }

  /** A call the agent makes itself, as opposed to the block or a span around code. */
  predicate IsAgentCall(e: Effect) {
    e.SetDefaultName? || e.Start? || e.Stop?
  }

  /** `p` never calls the block (and emits only agent calls). */
  predicate BlockFree(p: Stmt) {
    match p
    case Emit(e) => IsAgentCall(e)
    case CallBlock => false
    case Seq(first, rest) => BlockFree(first) && BlockFree(rest)
    case Ensure(body, cleanup) => BlockFree(body) && BlockFree(cleanup)
    case Traced(_, body) => BlockFree(body)
  }

  /** The kinds of recorded call, for counting. */
  datatype Kind = SpanKind | RenameKind | StartKind | CallKind | StopKind

  predicate IsKind(e: Effect, k: Kind) {
    match k
    case SpanKind => e.Span?
    case RenameKind => e.SetDefaultName?
    case StartKind => e.Start?
    case CallKind => e.Call?
    case StopKind => e.Stop?
  }

  /** How many calls of kind `k` a trace holds, counting those inside spans. */
  function Count(effects: seq<Effect>, k: Kind): nat
    decreases effects
  {
    if effects == [] then 0
    else
      var e := effects[0];
      (if IsKind(e, k) then 1 else 0)
      + (if e.Span? then Count(e.inner, k) else 0)
      + Count(effects[1..], k)
  }

  /** Counting distributes over concatenated traces. */
  lemma {:induction false} CountAppend(a: seq<Effect>, b: seq<Effect>, k: Kind)
    ensures Count(a + b, k) == Count(a, k) + Count(b, k)
    decreases a
  {
    if a == [] {
      assert a + b == b;
    } else {
      assert (a + b)[0] == a[0];
      assert (a + b)[1..] == a[1..] + b;
      CountAppend(a[1..], b, k);
    }
  }

  /** A statement that never calls the block neither raises nor records a call of it. */
  lemma {:induction false} BlockFreeNeverRaises<V, E>(p: Stmt, block: Outcome<V, E>)
    requires BlockFree(p)
    ensures Exec(p, block).outcome.Ok?
    ensures Count(Exec(p, block).effects, CallKind) == 0
  {
    match p
    case Emit(e) =>
      assert Exec(p, block).effects[1..] == [];
    case CallBlock =>
    case Seq(first, rest) =>
      BlockFreeNeverRaises(first, block);
      BlockFreeNeverRaises(rest, block);
      CountAppend(Exec(first, block).effects, Exec(rest, block).effects, CallKind);
    case Ensure(body, cleanup) =>
      BlockFreeNeverRaises(body, block);
      BlockFreeNeverRaises(cleanup, block);
      CountAppend(Exec(body, block).effects, Exec(cleanup, block).effects, CallKind);
    case Traced(name, body) =>
      BlockFreeNeverRaises(body, block);
      var r := Exec(body, block);
      assert Exec(p, block).effects == [Span(name, r.effects)];
      assert Exec(p, block).effects[1..] == [];
  }

  /**
   `ensure` keeps its promise: a block-free cleanup runs after the body
   whether the body returned or raised, and the body's outcome is kept.
   */
  lemma EnsureAlwaysCleansUp<V, E>(body: Stmt, cleanup: Stmt, block: Outcome<V, E>)
    requires BlockFree(cleanup)
    ensures Exec(Ensure(body, cleanup), block).effects
         == Exec(body, block).effects + Exec(cleanup, block).effects
    ensures Exec(Ensure(body, cleanup), block).outcome == Exec(body, block).outcome
  {
    BlockFreeNeverRaises(cleanup, block);
  }

  /** Without `ensure`, an error raised by the first statement skips the rest. */
  lemma SeqSkipsRestAfterRaise<V, E>(first: Stmt, rest: Stmt, block: Outcome<V, E>)
    requires Exec(first, block).outcome.Raised?
    ensures Exec(Seq(first, rest), block) == Exec(first, block)
  {
  }

  /** A span around the block records the span, the call inside it, and the block's outcome. */
  lemma ExecTracedBlock<V, E>(name: string, block: Outcome<V, E>)
    ensures Exec(Traced(name, CallBlock), block) == Run([Span(name, [Call])], Lift(block))
  {
  }

  /** An agent call followed by the block records both, and ends as the block does. */
  lemma ExecEmitThenBlock<V, E>(e: Effect, block: Outcome<V, E>)
    ensures Exec(Seq(Emit(e), CallBlock), block) == Run([e, Call], Lift(block))
  {
  }
}

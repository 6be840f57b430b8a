/**
 `ActiveJobHelper`: what the agent does around a job's enqueue and perform.

 Enqueue always wraps the block in a `Produce` span. Perform depends on the
 current transaction state: inside a web transaction it only wraps the block
 in a `Consume` span; inside a background transaction it renames that
 transaction after the job and calls the block; otherwise it starts an
 `:other` transaction named after the job, calls the block and stops the
 transaction in an `ensure` clause.

 The thread-local transaction state and the configured queue adapter's class
 name are parameters here; the block is represented by how it ends.
 */
module ActiveJobHelper {
  import opened Execution
  import opened JobNames
  import AdapterName

  /** The two questions `perform` asks of the current transaction state. */
  datatype TransactionState = TransactionState(inWebTransaction: bool, inBackgroundTransaction: bool)

  /** What the hooks read of a job: its queue and its class name as Ruby renders it. */
  datatype Job = Job(queueName: string, className: string)

  /** `adapter`: the configured queue adapter's class name, cleaned. */
  function Adapter(queueAdapterName: string): (r: string)
    ensures !AdapterName.Matches(queueAdapterName) ==> r == queueAdapterName
    ensures AdapterName.Matches(queueAdapterName) ==>
      AdapterName.CleanedPrefix <= r && |r| < |queueAdapterName|
  {
    AdapterName.Clean(queueAdapterName)
  }

  /** The body of `run_in_trace`. */
  function TraceProgram(adapter: string, job: Job, event: TraceEvent): Stmt {
    Traced(SpanName(adapter, event, job.queueName), CallBlock)
  }

  /** The body of `run_in_transaction`. */
  function TransactionProgram(adapter: string, job: Job): Stmt {
    Ensure(Seq(Emit(Start(Other, TransactionName(adapter, job.className))), CallBlock), Emit(Stop))
  }

  /** The background-transaction branch of `perform`. */
  function RenameProgram(adapter: string, job: Job): Stmt {
    Seq(Emit(SetDefaultName(TransactionNameSuffix(job.className), TransactionCategory(adapter))),
        CallBlock)
  }

  /** `run_in_trace`: the block runs inside one broker span; its outcome passes through. */
  function RunInTrace<V, E>(queueAdapterName: string, job: Job, event: TraceEvent,
                            block: Outcome<V, E>): (r: Run<V, E>)
    ensures r.effects == [Span(SpanName(Adapter(queueAdapterName), event, job.queueName), [Call])]
    ensures r.outcome == Lift(block)
  {
    ExecTracedBlock(SpanName(Adapter(queueAdapterName), event, job.queueName), block);
    Exec(TraceProgram(Adapter(queueAdapterName), job, event), block)
  }

  /**
   `run_in_transaction`: start, call, stop, in that order, whether the block
   returns or raises; the block's outcome passes through.
   */
  function RunInTransaction<V, E>(queueAdapterName: string, job: Job,
                                  block: Outcome<V, E>): (r: Run<V, E>)
    ensures r.effects
         == [Start(Other, TransactionName(Adapter(queueAdapterName), job.className)), Call, Stop]
    ensures r.outcome == Lift(block)
  {
    var p := TransactionProgram(Adapter(queueAdapterName), job);
    ExecEmitThenBlock(p.body.first.effect, block);
    EnsureAlwaysCleansUp(p.body, p.cleanup, block);
    Exec(p, block)
  }

  /** `enqueue`: the block runs inside one `Produce` span. */
  function Enqueue<V, E>(queueAdapterName: string, job: Job, block: Outcome<V, E>): (r: Run<V, E>)
    ensures r.effects == [Span(SpanName(Adapter(queueAdapterName), Produce, job.queueName), [Call])]
    ensures r.outcome == Lift(block)
  {
    RunInTrace(queueAdapterName, job, Produce, block)
  }

  /** `perform`: the three-way branch on the current transaction state. */
  function Perform<V, E>(state: TransactionState, queueAdapterName: string, job: Job,
                         block: Outcome<V, E>): (r: Run<V, E>)
    ensures r.outcome == Lift(block)
    ensures state.inWebTransaction ==>
      r.effects == [Span(SpanName(Adapter(queueAdapterName), Consume, job.queueName), [Call])]
    ensures !state.inWebTransaction && state.inBackgroundTransaction ==>
      r.effects == [SetDefaultName(TransactionNameSuffix(job.className),
                                   TransactionCategory(Adapter(queueAdapterName))), Call]
    ensures !state.inWebTransaction && !state.inBackgroundTransaction ==>
      r.effects == [Start(Other, TransactionName(Adapter(queueAdapterName), job.className)), Call, Stop]
  {
    if state.inWebTransaction then
      RunInTrace(queueAdapterName, job, Consume, block)
    else if state.inBackgroundTransaction then
      var p := RenameProgram(Adapter(queueAdapterName), job);
      ExecEmitThenBlock(p.first.effect, block);
      Exec(p, block)
    else
      RunInTransaction(queueAdapterName, job, block)
  }
}

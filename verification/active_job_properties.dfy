/**
 What `enqueue` and `perform` promise, stated over the recorded calls rather
 than over the exact traces: how often each kind of call happens, which
 branch runs, and that the block's outcome never changes the calls made.
 */
module ActiveJobProperties {
  import opened Execution
  import opened JobNames
  import opened ActiveJobHelper
  import AdapterName

  /** A trace of one agent call or block call, counted. */
  lemma CountSingle(e: Effect, k: Kind)
    ensures Count([e], k) == (if IsKind(e, k) then 1 else 0) + (if e.Span? then Count(e.inner, k) else 0)
  {
  }

  /** The counts of a trace of three calls. */
  lemma CountThree(a: Effect, b: Effect, c: Effect, k: Kind)
    requires !a.Span? && !b.Span? && !c.Span?
    ensures Count([a, b, c], k)
         == (if IsKind(a, k) then 1 else 0) + (if IsKind(b, k) then 1 else 0) + (if IsKind(c, k) then 1 else 0)
  {
    assert [a, b, c] == [a] + [b] + [c];
    CountAppend([a] + [b], [c], k);
    CountAppend([a], [b], k);
    CountSingle(a, k);
    CountSingle(b, k);
    CountSingle(c, k);
  }

  /** The counts of a trace of two calls. */
  lemma CountTwo(a: Effect, b: Effect, k: Kind)
    requires !a.Span? && !b.Span?
    ensures Count([a, b], k) == (if IsKind(a, k) then 1 else 0) + (if IsKind(b, k) then 1 else 0)
  {
    assert [a, b] == [a] + [b];
    CountAppend([a], [b], k);
    CountSingle(a, k);
    CountSingle(b, k);
  }

  /**
   `enqueue` calls the block exactly once, inside exactly one span, and
   starts, stops or renames no transaction; a raised error propagates.
   */
  lemma EnqueueCallsBlockOnceInOneSpan<V, E>(queueAdapterName: string, job: Job, block: Outcome<V, E>)
    ensures var r := Enqueue(queueAdapterName, job, block);
      && Count(r.effects, CallKind) == 1
      && Count(r.effects, SpanKind) == 1
      && Count(r.effects, StartKind) == 0
      && Count(r.effects, StopKind) == 0
      && Count(r.effects, RenameKind) == 0
      && (block.Raised? ==> r.outcome == Raised(block.error))
  {
  }

  /**
   Inside a web transaction `perform` calls the block exactly once inside one
   `Consume` span and starts, stops or renames no transaction.
   */
  lemma PerformInWebTransaction<V, E>(state: TransactionState, queueAdapterName: string, job: Job,
                                      block: Outcome<V, E>)
    requires state.inWebTransaction
    ensures var r := Perform(state, queueAdapterName, job, block);
      && r.effects[0].Span?
      && r.effects[0].name == SpanName(Adapter(queueAdapterName), Consume, job.queueName)
      && Count(r.effects, CallKind) == 1
      && Count(r.effects, SpanKind) == 1
      && Count(r.effects, StartKind) == 0
      && Count(r.effects, StopKind) == 0
      && Count(r.effects, RenameKind) == 0
  {
  }

  /**
   Inside a background transaction (and no web transaction) `perform` renames
   the current transaction once, after the job, then calls the block once,
   bare: no span, and no transaction started or stopped.
   */
  lemma PerformInBackgroundTransaction<V, E>(state: TransactionState, queueAdapterName: string, job: Job,
                                             block: Outcome<V, E>)
    requires !state.inWebTransaction && state.inBackgroundTransaction
    ensures var r := Perform(state, queueAdapterName, job, block);
      && r.effects[0] == SetDefaultName(job.className + "/execute",
                                        "OtherTransaction/" + Adapter(queueAdapterName))
      && r.effects[1..] == [Call]
      && Count(r.effects, RenameKind) == 1
      && Count(r.effects, CallKind) == 1
      && Count(r.effects, SpanKind) == 0
      && Count(r.effects, StartKind) == 0
      && Count(r.effects, StopKind) == 0
  {
    var r := Perform(state, queueAdapterName, job, block);
    assert r.effects[1..] == [Call];
    CountTwo(r.effects[0], Call, RenameKind);
    CountTwo(r.effects[0], Call, CallKind);
    CountTwo(r.effects[0], Call, SpanKind);
    CountTwo(r.effects[0], Call, StartKind);
    CountTwo(r.effects[0], Call, StopKind);
  }

  /**
   Outside any transaction `perform` starts an `:other` transaction named
   after the job, calls the block, and stops the transaction last, even when
   the block raised; the raised error is what `perform` ends with.
   */
  lemma PerformOutsideTransaction<V, E>(state: TransactionState, queueAdapterName: string, job: Job,
                                        block: Outcome<V, E>)
    requires !state.inWebTransaction && !state.inBackgroundTransaction
    ensures var r := Perform(state, queueAdapterName, job, block);
      && |r.effects| == 3
      && r.effects[0] == Start(Other, "OtherTransaction/" + Adapter(queueAdapterName) + "/"
                                      + job.className + "/execute")
      && r.effects[1] == Call
      && r.effects[2] == Stop
      && Count(r.effects, StartKind) == 1
      && Count(r.effects, CallKind) == 1
      && Count(r.effects, StopKind) == 1
      && Count(r.effects, SpanKind) == 0
      && Count(r.effects, RenameKind) == 0
      && (block.Raised? ==> r.outcome == Raised(block.error))
  {
    var r := Perform(state, queueAdapterName, job, block);
    TransactionNameSpelledOut(Adapter(queueAdapterName), job.className);
    CountThree(r.effects[0], Call, Stop, StartKind);
    CountThree(r.effects[0], Call, Stop, CallKind);
    CountThree(r.effects[0], Call, Stop, StopKind);
    CountThree(r.effects[0], Call, Stop, SpanKind);
    CountThree(r.effects[0], Call, Stop, RenameKind);
  }

  /** When both predicates hold, the web check wins: the span branch runs. */
  lemma PerformWebCheckWins<V, E>(background: bool, queueAdapterName: string, job: Job,
                                  block: Outcome<V, E>)
    ensures Perform(TransactionState(true, background), queueAdapterName, job, block)
         == Perform(TransactionState(true, false), queueAdapterName, job, block)
  {
  }

  /**
   Exactly one branch runs, and the trace tells which: a span exactly in a
   web transaction, a rename exactly in a background transaction that is not
   also a web one, a started transaction exactly outside both.
   */
  lemma PerformBranchesExclusive<V, E>(state: TransactionState, queueAdapterName: string, job: Job,
                                       block: Outcome<V, E>)
    ensures var r := Perform(state, queueAdapterName, job, block);
      && (Count(r.effects, SpanKind) > 0 <==> state.inWebTransaction)
      && (Count(r.effects, RenameKind) > 0 <==> !state.inWebTransaction && state.inBackgroundTransaction)
      && (Count(r.effects, StartKind) > 0 <==> !state.inWebTransaction && !state.inBackgroundTransaction)
      && Count(r.effects, SpanKind) + Count(r.effects, RenameKind) + Count(r.effects, StartKind) == 1
  {
    if state.inWebTransaction {
      PerformInWebTransaction(state, queueAdapterName, job, block);
    } else if state.inBackgroundTransaction {
      PerformInBackgroundTransaction(state, queueAdapterName, job, block);
    } else {
      PerformOutsideTransaction(state, queueAdapterName, job, block);
    }
  }

  /**
   In every branch `perform` calls the block exactly once, starts at most one
   transaction and stops every transaction it starts, and ends as the block
   ended.
   */
  lemma PerformCallsBlockOnce<V, E>(state: TransactionState, queueAdapterName: string, job: Job,
                                    block: Outcome<V, E>)
    ensures var r := Perform(state, queueAdapterName, job, block);
      && Count(r.effects, CallKind) == 1
      && Count(r.effects, StartKind) == Count(r.effects, StopKind) <= 1
      && (block.Ok? ==> r.outcome == Ok(FromBlock(block.value)))
      && (block.Raised? ==> r.outcome == Raised(block.error))
  {
    if state.inWebTransaction {
      PerformInWebTransaction(state, queueAdapterName, job, block);
    } else if state.inBackgroundTransaction {
      PerformInBackgroundTransaction(state, queueAdapterName, job, block);
    } else {
      PerformOutsideTransaction(state, queueAdapterName, job, block);
    }
  }

  /** The calls `perform` makes do not depend on whether the block returns or raises. */
  lemma PerformTraceIgnoresOutcome<V, E>(state: TransactionState, queueAdapterName: string, job: Job,
                                         block: Outcome<V, E>, block': Outcome<V, E>)
    ensures Perform(state, queueAdapterName, job, block).effects
         == Perform(state, queueAdapterName, job, block').effects
  {
  }

  /**
   The name a background transaction is renamed to, category and suffix
   joined, is the name a transaction started for the same job would get.
   */
  lemma RenameAgreesWithStart<V, E>(queueAdapterName: string, job: Job, block: Outcome<V, E>)
    ensures var renamed := Perform(TransactionState(false, true), queueAdapterName, job, block).effects[0];
      var started := Perform(TransactionState(false, false), queueAdapterName, job, block).effects[0];
      renamed.category + "/" + renamed.suffix == started.name
  {
  }

  /** The Resque adapter is reported as `ActiveJob::Resque`. */
  lemma ResqueAdapterName(queueAdapterName: string)
    requires queueAdapterName == "ActiveJob::QueueAdapters::ResqueAdapter"
    ensures Adapter(queueAdapterName) == "ActiveJob::Resque"
  {
    // The name is a parameter pinned by `requires`: a literal argument to
    // `Adapter` makes the verifier unfold the search on it and run out of resources.
    var capture := "Resque";
    assert queueAdapterName == AdapterName.QueueAdaptersPrefix + capture + AdapterName.AdapterSuffix;
    AdapterName.CleanQueueAdapterClass(capture);
  }

  /**
   A `ReportJob` on the `default` queue, with the Resque adapter and no
   transaction active: no span, a transaction named
   `OtherTransaction/ActiveJob::Resque/ReportJob/execute` is started, the
   block runs, and the transaction is stopped.
   */
  lemma ReportJobScenario<V, E>(queueAdapterName: string, job: Job, block: Outcome<V, E>)
    requires queueAdapterName == "ActiveJob::QueueAdapters::ResqueAdapter"
    requires job == Job("default", "ReportJob")
    ensures Perform(TransactionState(false, false), queueAdapterName, job, block).effects
         == [Start(Other, "OtherTransaction/ActiveJob::Resque/ReportJob/execute"), Call, Stop]
  {
    // The name is a parameter pinned by `requires`: a literal argument to
    // `Adapter` makes the verifier unfold the search on it and run out of resources.
    ResqueAdapterName(queueAdapterName);
    ReportJobWithAdapter(queueAdapterName, job, block);
  }

  /** The scenario above, once the adapter name is known to clean to `ActiveJob::Resque`. */
  lemma ReportJobWithAdapter<V, E>(queueAdapterName: string, job: Job, block: Outcome<V, E>)
    requires Adapter(queueAdapterName) == "ActiveJob::Resque"
    requires job == Job("default", "ReportJob")
    ensures Perform(TransactionState(false, false), queueAdapterName, job, block).effects
         == [Start(Other, "OtherTransaction/ActiveJob::Resque/ReportJob/execute"), Call, Stop]
  {
    var name := "OtherTransaction/" + Adapter(queueAdapterName) + "/" + job.className + "/execute";
    assert name == "OtherTransaction/ActiveJob::Resque/ReportJob/execute";
    PerformOutsideTransaction(TransactionState(false, false), queueAdapterName, job, block);
  }
}

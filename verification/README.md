# ActiveJob instrumentation of the New Relic Ruby agent, modelled in Dafny

The agent hooks `around_enqueue` and `around_perform` of ActiveJob and hands
each job to `NewRelic::Agent::Instrumentation::ActiveJobHelper`. This project
models that helper:

- **Adapter-name cleaning** (`AdapterName`): `clean_adapter_name` with the
  unanchored regex `/ActiveJob::QueueAdapters::(.*)Adapter/`. The regex is
  modelled by hand. `MatchAt` and `IsRegexMatch` define a match and say which
  one Ruby reports: the leftmost start, then the greedy `.*`. The `.*` does not
  cross a newline. `Find` is an executable search, proved to return exactly
  that match. `Clean` rewrites the whole name to `"ActiveJob::"` plus the
  capture, or keeps it when nothing matches.
- **Names** (`JobNames`): the broker span name of `run_in_trace`,
  `transaction_category`, `transaction_name_suffix_for_job` and
  `transaction_name_for_job`.
- **Execution** (`Execution`): a small model of the Ruby statements the hooks
  are written with. It covers an agent call, `block.call`, sequencing,
  `begin ... ensure ... end` and the `trace_execution_scoped` span wrapper.
  Running a statement yields the calls made, in order, as an `Effect` trace.
  It also yields how the run ended: with the block's value or with the error
  the block raised.
- **Dispatch** (`ActiveJobHelper`, `ActiveJobProperties`): `enqueue`,
  `perform`, `run_in_trace` and `run_in_transaction` are written as such
  statements and run. The properties cover the three-way branch of
  `perform`, the single block call, and the `Stop` that `ensure` guarantees.

Inputs that the Ruby code reads from globals are parameters here:
- the thread-local transaction state, as the two booleans `perform` asks
  about;
- the configured queue adapter's class name, as a string;
- the block, as its outcome (`Ok(v)` or `Raised(e)`).

The source asks two separate questions, `in_web_transaction?` and
`in_background_transaction?`, rather than reading one three-valued state. The
model follows it, so "the web check wins when both hold" is a stated property.
The adapter name is a global of the framework, not an attribute of the job.
The regex rewrites the literal namespace `ActiveJob`, not an arbitrary one.

## Model

| member | source | states |
|---|---|---|
| AdapterName.RegexMatchUnique | lib/new_relic/agent/instrumentation/active_job.rb:84-87 | the match Ruby reports (leftmost start, longest capture) is unique, so `$1` is well defined |
| AdapterName.LineEnd | lib/new_relic/agent/instrumentation/active_job.rb:84 | the end of the current line is the first newline or the end of the string, and nothing before it is a newline: the furthest `.*` can reach |
| AdapterName.LastSuffix | lib/new_relic/agent/instrumentation/active_job.rb:84 | finds the largest index in a range where `Adapter` occurs, or proves there is none |
| AdapterName.GreedyStop | lib/new_relic/agent/instrumentation/active_job.rb:84 | at a start where the prefix occurs, returns the longest capture the regex can match there, or proves that no match starts there |
| AdapterName.FindFrom | lib/new_relic/agent/instrumentation/active_job.rb:84 | returns the leftmost match starting at or after an index, with the greedy capture, or proves there is none |
| AdapterName.Find | lib/new_relic/agent/instrumentation/active_job.rb:87 | `ADAPTER_REGEX =~ name`: reports exactly the match Ruby reports, and reports none exactly when the regex does not match |
| AdapterName.Clean | lib/new_relic/agent/instrumentation/active_job.rb:86-89 | without a match the name is unchanged; with one the result is `ActiveJob::` plus the capture of the reported match, so it starts with `ActiveJob::` and is strictly shorter than the name |
| AdapterName.CleanFixedIffNoMatch | lib/new_relic/agent/instrumentation/active_job.rb:86-89 | cleaning leaves a name unchanged if and only if the regex does not match it |
| AdapterName.CleanAtMatch | lib/new_relic/agent/instrumentation/active_job.rb:87 | given the reported match, the cleaned name is `ActiveJob::` plus its capture |
| AdapterName.CleanQueueAdapterClass | lib/new_relic/agent/instrumentation/active_job.rb:84-88 | for every newline-free X, `ActiveJob::QueueAdapters::XAdapter` cleans to `ActiveJob::X` |
| AdapterName.CleanDropsSurroundings | lib/new_relic/agent/instrumentation/active_job.rb:84-88 | text before the match and after its `Adapter` is dropped from the cleaned name, provided the prefix does not begin earlier and no later `Adapter` begins after that one |
| AdapterName.CleanDropsOuterNamespace | lib/new_relic/agent/instrumentation/active_job.rb:84-88 | an enclosing namespace is dropped too: for every newline-free X, `Acme::ActiveJob::QueueAdapters::XAdapter` cleans to `ActiveJob::X` |
| AdapterName.CleanSidekiq | lib/new_relic/agent/instrumentation/active_job.rb:84-88 | `ActiveJob::QueueAdapters::SidekiqAdapter` cleans to `ActiveJob::Sidekiq` |
| AdapterName.CleanIsGreedy | lib/new_relic/agent/instrumentation/active_job.rb:84 | the capture runs to the last `Adapter`: for newline-free X and Y, `ActiveJob::QueueAdapters::XAdapterYAdapter` cleans to `ActiveJob::XAdapterY` |
| AdapterName.CleanStopsAtNewline | lib/new_relic/agent/instrumentation/active_job.rb:84 | a capture cannot span a newline, so such a name is kept unchanged |
| AdapterName.CleanCustom | lib/new_relic/agent/instrumentation/active_job.rb:86-89 | `CustomAdapter` does not match and is kept unchanged |
| JobNames.SpanName | lib/new_relic/agent/instrumentation/active_job.rb:53 | the span name begins with `MessageBroker/{adapter}/Queue/`, holds the event name right after that, and ends with the queue name |
| JobNames.TransactionCategory | lib/new_relic/agent/instrumentation/active_job.rb:68-70 | the category is `OtherTransaction/` followed by exactly the adapter name |
| JobNames.TransactionNameSuffix | lib/new_relic/agent/instrumentation/active_job.rb:72-74 | the suffix is the job class followed by exactly `/execute` |
| JobNames.TransactionName | lib/new_relic/agent/instrumentation/active_job.rb:76-78 | a transaction name begins with `OtherTransaction/`, ends with `/execute`, and is exactly as long as `OtherTransaction/`, the adapter, a slash, the job class and `/execute` together |
| JobNames.TransactionNameSpelledOut | lib/new_relic/agent/instrumentation/active_job.rb:68-78 | category, slash and suffix together read `OtherTransaction/{adapter}/{job class}/execute` |
| JobNames.TransactionNameParts | lib/new_relic/agent/instrumentation/active_job.rb:76-78 | a transaction name begins with its category and a slash and ends with its suffix |
| JobNames.SpanNameInjective | lib/new_relic/agent/instrumentation/active_job.rb:53 | for one adapter, the span name determines the event (Produce or Consume) and the queue name |
| JobNames.TransactionNameInjective | lib/new_relic/agent/instrumentation/active_job.rb:72-78 | for one adapter, the transaction name determines the job class |
| JobNames.SpanNameIsNotTransactionName | lib/new_relic/agent/instrumentation/active_job.rb:52-78 | a broker span name never equals a transaction name |
| Execution.BlockFreeNeverRaises | lib/new_relic/agent/instrumentation/active_job.rb:60-64 | code made only of agent calls never raises and never calls the block |
| Execution.EnsureAlwaysCleansUp | lib/new_relic/agent/instrumentation/active_job.rb:59-65 | `begin body ensure cleanup end` with agent-only cleanup records the body's calls and then the cleanup's, whether or not the body raised, and ends as the body ended |
| Execution.SeqSkipsRestAfterRaise | lib/new_relic/agent/instrumentation/active_job.rb:43-46 | in a plain sequence, an error raised by the first part skips the rest |
| Execution.ExecTracedBlock | lib/new_relic/agent/instrumentation/active_job.rb:53-55 | a span around the block records one span holding one call, and ends as the block ended |
| Execution.ExecEmitThenBlock | lib/new_relic/agent/instrumentation/active_job.rb:43-46 | an agent call followed by the block records both, in order, and ends as the block ended |
| ActiveJobHelper.Adapter | lib/new_relic/agent/instrumentation/active_job.rb:80-82 | the reported adapter is the configured class name when the regex does not match it; otherwise it starts with `ActiveJob::` and is shorter than the class name |
| ActiveJobHelper.RunInTrace | lib/new_relic/agent/instrumentation/active_job.rb:52-56 | the block is called once inside one span named `MessageBroker/{adapter}/Queue/{event}/Named/{queue}`, and its outcome passes through |
| ActiveJobHelper.RunInTransaction | lib/new_relic/agent/instrumentation/active_job.rb:58-66 | start of an `:other` transaction named after the job, then the call, then stop, even when the block raises; the block's outcome passes through |
| ActiveJobHelper.Enqueue | lib/new_relic/agent/instrumentation/active_job.rb:31-33 | the trace is exactly one `Produce` span around one call, and the block's outcome passes through |
| ActiveJobHelper.Perform | lib/new_relic/agent/instrumentation/active_job.rb:35-50 | the block's outcome always passes through; the exact trace of each of the three branches |
| ActiveJobProperties.EnqueueCallsBlockOnceInOneSpan | lib/new_relic/agent/instrumentation/active_job.rb:31-33 | enqueue calls the block once, in one span, starts, stops or renames no transaction, and propagates a raised error |
| ActiveJobProperties.PerformInWebTransaction | lib/new_relic/agent/instrumentation/active_job.rb:38-41 | in a web transaction: one `Consume` span named after the queue, one call, and no start, stop or rename |
| ActiveJobProperties.PerformInBackgroundTransaction | lib/new_relic/agent/instrumentation/active_job.rb:42-46 | in a background transaction that is not a web one: one rename to `{job class}/execute` in category `OtherTransaction/{adapter}`, then one bare call; no span, start or stop |
| ActiveJobProperties.PerformOutsideTransaction | lib/new_relic/agent/instrumentation/active_job.rb:47-48 | outside any transaction: exactly start `OtherTransaction/{adapter}/{job class}/execute`, call, stop, in that order; stop is last even when the block raised, and the raised error is the outcome |
| ActiveJobProperties.PerformWebCheckWins | lib/new_relic/agent/instrumentation/active_job.rb:40-42 | when both the web and the background predicates hold, perform does what it does in a web transaction |
| ActiveJobProperties.PerformBranchesExclusive | lib/new_relic/agent/instrumentation/active_job.rb:40-49 | a span appears iff in a web transaction, a rename iff in a background one but not a web one, a start iff in neither; exactly one of the three appears |
| ActiveJobProperties.PerformCallsBlockOnce | lib/new_relic/agent/instrumentation/active_job.rb:35-66 | in every branch the block is called exactly once, at most one transaction is started and every started one is stopped, and perform ends as the block ended |
| ActiveJobProperties.PerformTraceIgnoresOutcome | lib/new_relic/agent/instrumentation/active_job.rb:58-66 | the calls perform makes are the same whether the block returns or raises |
| ActiveJobProperties.RenameAgreesWithStart | lib/new_relic/agent/instrumentation/active_job.rb:42-48 | the category and suffix a background transaction is renamed with, joined by a slash, are the name a transaction started for the same job gets |
| ActiveJobProperties.ResqueAdapterName | lib/new_relic/agent/instrumentation/active_job.rb:80-88 | the Resque adapter's class name is reported as `ActiveJob::Resque` |
| ActiveJobProperties.ReportJobScenario | lib/new_relic/agent/instrumentation/active_job.rb:35-78 | `ReportJob` on `default` with Resque and no transaction: start `OtherTransaction/ActiveJob::Resque/ReportJob/execute`, call, stop |

## Left out

- Registration through `DependencyDetection.defer`, `depends_on` and `executes`, and installing the `around_enqueue`/`around_perform` hooks (lines 5-23): framework glue with no behaviour of its own.
- The startup log line (line 13): I/O.
- Reading `::ActiveJob::Base.queue_adapter.name` (line 81): the raw class name is a parameter; only its cleaning is modelled. A nil name is not modelled.
- `TransactionState.tl_get` (line 36): a thread-local, replaced by an explicit `TransactionState` parameter. Thread and fiber isolation is concurrency and is out of scope.
- What `trace_execution_scoped`, `Transaction.start`, `Transaction.stop` and `Transaction.set_default_transaction_name` do inside: foreign agent code. They are recorded as effects. Nothing is claimed about timing or metric storage.
- `Transaction.start`, `Transaction.stop` and `Transaction.set_default_transaction_name` are assumed to return normally.
- `trace_execution_scoped` is assumed to return the value of its block, and to re-raise the error its block raised after recording the span. Because `run_in_trace` ends with it, that value is what `enqueue` returns, and what `perform` returns inside a web transaction (lines 32, 41, 53-55).
- `Transaction.stop` raising inside the `ensure` clause: the source does not define what should happen then. The execution model follows Ruby's rule, where an error in `ensure` replaces the pending one, but no agent call ever raises in the model.
- The values returned by `Transaction.start`, `Transaction.stop` and `Transaction.set_default_transaction_name`: none of them is ever the value of a hook, so the model records them as `Untracked`.
- How Ruby renders `job.class`: the job's class name is a given string.
- Regex features outside this one pattern, and character encodings: names are sequences of characters, and `.` matches every character except `'\n'`, as in Ruby's default mode.

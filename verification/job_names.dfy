/**
 The metric and transaction names the ActiveJob instrumentation builds from
 the cleaned adapter name, a job's queue name and a job's class name.
 */
module JobNames {

  /** Whether a traced call enqueues a job or performs one (`:Produce` / `:Consume`). */
  datatype TraceEvent = Produce | Consume

  /** How Ruby interpolates the event symbol into a string. */
  function EventName(event: TraceEvent): string {
    match event
    case Produce => "Produce"
    case Consume => "Consume"
  }

  /** The span name of `run_in_trace`: `MessageBroker/{adapter}/Queue/{event}/Named/{queue}`. */
  function SpanName(adapter: string, event: TraceEvent, queueName: string): (r: string)
    ensures "MessageBroker/" + adapter + "/Queue/" <= r
    ensures var k := |"MessageBroker/" + adapter + "/Queue/"|;
      k + |EventName(event)| <= |r| && r[k..k + |EventName(event)|] == EventName(event)
    ensures |queueName| <= |r| && r[|r| - |queueName|..] == queueName
  {
    "MessageBroker/" + adapter + "/Queue/" + EventName(event) + "/Named/" + queueName
  }

  /** `transaction_category`: `OtherTransaction/{adapter}`. */
  function TransactionCategory(adapter: string): (r: string)
    ensures "OtherTransaction/" <= r && r[|"OtherTransaction/"|..] == adapter
  {
    "OtherTransaction/" + adapter
  }

  /** `transaction_name_suffix_for_job`: `{job class}/execute`. */
  function TransactionNameSuffix(jobClass: string): (r: string)
    ensures jobClass <= r && r[|jobClass|..] == "/execute"
  {
    jobClass + "/execute"
  }

  /** `transaction_name_for_job`: the category and the suffix joined by a slash. */
  function TransactionName(adapter: string, jobClass: string): (r: string)
    ensures "OtherTransaction/" <= r
    ensures |"/execute"| <= |r| && r[|r| - |"/execute"|..] == "/execute"
    ensures |r| == |"OtherTransaction/"| + |adapter| + 1 + |jobClass| + |"/execute"|
  {
    TransactionCategory(adapter) + "/" + TransactionNameSuffix(jobClass)
  }

  /** Spelled out, a job's transaction name is `OtherTransaction/{adapter}/{job class}/execute`. */
  lemma TransactionNameSpelledOut(adapter: string, jobClass: string)
    ensures TransactionName(adapter, jobClass)
         == "OtherTransaction/" + adapter + "/" + jobClass + "/execute"
  {
  }

  /** A transaction name begins with its category and ends with its suffix. */
  lemma TransactionNameParts(adapter: string, jobClass: string)
    ensures TransactionCategory(adapter) + "/" <= TransactionName(adapter, jobClass)
    ensures var n := TransactionName(adapter, jobClass);
      n[|n| - |TransactionNameSuffix(jobClass)|..] == TransactionNameSuffix(jobClass)
  {
  }

  /** `x + a == x + b` only when `a == b`. */
  lemma CancelPrefix(x: string, a: string, b: string)
    requires x + a == x + b
    ensures a == b
  {
    assert a == (x + a)[|x|..];
    assert b == (x + b)[|x|..];
  }

  /** `a + y == b + y` only when `a == b`. */
  lemma CancelSuffix(a: string, b: string, y: string)
    requires a + y == b + y
    ensures a == b
  {
    assert a == (a + y)[..|a|];
    assert b == (b + y)[..|b|];
  }

  /**
   For one adapter, the span name determines whether the call was an enqueue
   or a perform, and which queue it was on.
   */
  lemma SpanNameInjective(adapter: string, event: TraceEvent, queueName: string,
                          event': TraceEvent, queueName': string)
    requires SpanName(adapter, event, queueName) == SpanName(adapter, event', queueName')
    ensures event == event' && queueName == queueName'
  {
    var head := "MessageBroker/" + adapter + "/Queue/";
    assert SpanName(adapter, event, queueName) == head + (EventName(event) + "/Named/" + queueName);
    assert SpanName(adapter, event', queueName') == head + (EventName(event') + "/Named/" + queueName');
    CancelPrefix(head, EventName(event) + "/Named/" + queueName, EventName(event') + "/Named/" + queueName');
    var tail := EventName(event) + "/Named/" + queueName;
    assert tail[..7] == EventName(event);
    var tail' := EventName(event') + "/Named/" + queueName';
    assert tail'[..7] == EventName(event');
    assert event == event';
    var mid := EventName(event) + "/Named/";
    assert tail == mid + queueName;
    assert tail' == mid + queueName';
    CancelPrefix(mid, queueName, queueName');
  }

  /** For one adapter, the transaction name determines the job class. */
  lemma TransactionNameInjective(adapter: string, jobClass: string, jobClass': string)
    requires TransactionName(adapter, jobClass) == TransactionName(adapter, jobClass')
    ensures jobClass == jobClass'
  {
    var head := TransactionCategory(adapter) + "/";
    assert TransactionName(adapter, jobClass) == head + TransactionNameSuffix(jobClass);
    assert TransactionName(adapter, jobClass') == head + TransactionNameSuffix(jobClass');
    CancelPrefix(head, TransactionNameSuffix(jobClass), TransactionNameSuffix(jobClass'));
    CancelSuffix(jobClass, jobClass', "/execute");
  }

  /** A broker span name never coincides with a transaction name. */
  lemma SpanNameIsNotTransactionName(adapter: string, event: TraceEvent, queueName: string,
                                     adapter': string, jobClass: string)
    ensures SpanName(adapter, event, queueName) != TransactionName(adapter', jobClass)
  {
    assert SpanName(adapter, event, queueName)[0] == 'M';
    assert TransactionName(adapter', jobClass)[0] == 'O';
  }
}

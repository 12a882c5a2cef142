/**
 * The computations in `Await` that depend only on their inputs:
 *  - the poll-interval staircase chosen from a timeout;
 *  - the seconds guard of `waitFor`;
 *  - the failure texts;
 *  - how a timeout reported by Awaitility is turned into what the caller sees, given the pending message fields.
 *
 * Awaitility itself is not part of this model. Its `ConditionFactory` is recorded as the list of builder calls
 * applied to it. The result of its poll loop is an input, `PollResult`.
 */
module AwaitSpec {
  import opened Wrappers
  import opened JavaLang

  // ---------------------------------------------------------------- configuration

  datatype TimeUnit = Nanoseconds | Microseconds | Milliseconds | Seconds | Minutes | Hours | Days

  /** An Awaitility `Duration`. */
  datatype Duration = Duration(amount: int64, unit: TimeUnit)

  /** Exception classes, as ignore rules and failures name them. */
  datatype ExceptionKind =
    | StaleElementReference
    | NoSuchElement
    | OtherKind(className: string)

  /** An exception or error object leaving a call, with its `getMessage()`. */
  datatype Thrown = Thrown(kind: ExceptionKind, message: JString)

  datatype PollInterval = FixedInterval(interval: Duration) | CustomInterval(id: nat)

  /** A Hamcrest matcher or predicate over exceptions. Only which one it is matters here. */
  datatype ExceptionFilter = NeverMatches | Filter(id: nat)

  /** One call on Awaitility's `ConditionFactory` builder. */
  datatype ConfigStep =
    | TimeoutOf(timeout: Duration)
    | AtLeastOf(atLeast: Duration)
    | AtMostOf(atMost: Duration)
    | BetweenOf(lower: Duration, upper: Duration)
    | PollDelayOf(delay: Duration)
    | PollIntervalOf(interval: PollInterval)
    | PollIntervalIn(amount: int64, unit: TimeUnit)
    | IgnoreExceptionOf(kind: ExceptionKind)
    | IgnoreInstancesOf(kind: ExceptionKind)
    | IgnoreAll
    | IgnoreMatching(filter: ExceptionFilter)
    | DontCatchUncaught
    | ListenerOf(id: nat)

  /** The two ignore rules every `Await` starts with. */
  const DEFAULT_IGNORES: seq<ConfigStep> :=
    [IgnoreExceptionOf(StaleElementReference), IgnoreExceptionOf(NoSuchElement)]

  /** The poll interval, in milliseconds, that the timeout constructor picks for a timeout in milliseconds. */
  function PollIntervalMs(timeoutMs: int64): (r: int64)
    ensures 200 <= r <= 1000
  {
    if timeoutMs >= 10000 then 1000
    else if timeoutMs > 3000 then 500
    else if timeoutMs > 1000 then 300
    else 200
  }

  /** The builder calls of the timeout constructor. */
  function TimedSteps(timeoutMs: int64): seq<ConfigStep>
  {
    [ TimeoutOf(Duration(timeoutMs, Milliseconds)),
      PollIntervalOf(FixedInterval(Duration(PollIntervalMs(timeoutMs), Milliseconds)))
    ] + DEFAULT_IGNORES
  }

  /** The interval at the edges of each step of the staircase. */
  lemma StaircaseBoundaries()
    ensures PollIntervalMs(999) == 200 && PollIntervalMs(1000) == 200
    ensures PollIntervalMs(1001) == 300 && PollIntervalMs(3000) == 300
    ensures PollIntervalMs(3001) == 500 && PollIntervalMs(9999) == 500
    ensures PollIntervalMs(10000) == 1000 && PollIntervalMs(10001) == 1000
  {
  }

  /** A longer timeout never gets a shorter interval. */
  lemma StaircaseMonotone(t1: int64, t2: int64)
    requires t1 <= t2
    ensures PollIntervalMs(t1) <= PollIntervalMs(t2)
  {
  }

  /** The text of the exception `waitFor` raises for a rejected number of seconds. */
  function TypoMessage(seconds: int32): (t: string)
    ensures |t| > 38 && t[..22] == "Waiter timeout set to " && t[|t| - 16..] == "s. Is it a typo?"
    ensures t[22..|t| - 16] == IntToString(seconds as int)
  {
    "Waiter timeout set to " + IntToString(seconds as int) + "s. Is it a typo?"
  }

  /** The guard of `waitFor(int seconds)` and the `int` timeout in milliseconds it passes on. */
  function WaitForTimeoutMs(seconds: int32): (r: Result<int32, string>)
    ensures r.Failure? <==> seconds == 0 || seconds > 1000
    ensures r.Failure? ==> r.error == TypoMessage(seconds)
    ensures r.Success? ==> (r.value as int - seconds as int * 1000) % 0x1_0000_0000 == 0
    ensures 1 <= seconds <= 1000 ==> r == Success(seconds * 1000)
  {
    if seconds > 1000 || seconds == 0 then Failure(TypoMessage(seconds))
    else Success(IntMul(seconds, 1000))
  }

  /** Negative seconds pass the guard. Their product wraps around: a large negative count gives a large
      positive timeout. */
  lemma NegativeSecondsPassGuard()
    ensures WaitForTimeoutMs(-1) == Success(-1000)
    ensures WaitForTimeoutMs(-2147483) == Success(-2147483000)
    ensures WaitForTimeoutMs(-2147484) == Success(2147483296)
  {
  }

  // ---------------------------------------------------------------- failure reporting

  /** A `Callable<String>` message supplier: what its `call()` does. */
  datatype Producer =
    | Yields(text: JString)
    | ThrowsException(message: JString)   // a `java.lang.Exception`, with its `getMessage()`
    | ThrowsError(error: Thrown)           // a `Throwable` that is not an `Exception`

  /** The four nullable message fields of an `Await`. */
  datatype Messages = Messages(
    errorMessage: JString,
    callableErrorMessage: Option<Producer>,
    exceptionMessage: JString,
    callableExceptionMessage: Option<Producer>)

  const NoMessages: Messages := Messages(None, None, None, None)

  function SetCount(m: Messages): (n: nat)
    ensures n == 0 <==> m == NoMessages
  {
    (if m.errorMessage.Some? then 1 else 0) + (if m.callableErrorMessage.Some? then 1 else 0)
    + (if m.exceptionMessage.Some? then 1 else 0) + (if m.callableExceptionMessage.Some? then 1 else 0)
  }

  /** The invariant of `Await`: at most one way of reporting failure is configured. */
  predicate AtMostOneSet(m: Messages)
  {
    SetCount(m) <= 1
  }

  /** How a wait ends for its caller. */
  datatype Signal =
    | AssertionFailure(text: string)   // TestNG `fail`: a `java.lang.AssertionError`
    | TimeoutException(text: string)   // a new `ConditionTimeoutException`
    | RuntimeError(text: string)       // a `java.lang.RuntimeException`
    | OriginalTimeout(text: string)    // Awaitility's own `ConditionTimeoutException`, rethrown
    | Propagated(error: Thrown)        // any other throwable, passed through untouched

  datatype Outcome<+V> = Returned(value: V) | Threw(signal: Signal)

  /** What Awaitility's poll loop did. */
  datatype PollResult<+V> =
    | Satisfied(value: V)      // the condition held: the value it accepted
    | TimedOut(message: string) // a `ConditionTimeoutException` and its message
    | Raised(error: Thrown)     // any other throwable the poll loop let through

  /** Text of the assertion failure: the message and ";\n" unless the message is blank, then the original text. */
  function AssertionText(message: JString, original: string): (t: string)
    ensures IsBlank(message) ==> t == original
    ensures !IsBlank(message) ==> t == message.value + ";\n" + original
  {
    (if IsBlank(message) then "" else ValueOf(message) + ";\n") + original
  }

  /** Text of a new timeout exception: the message (even a blank or null one) and "\n", then the original text. */
  function TimeoutText(message: JString, original: string): (t: string)
    ensures |t| == |ValueOf(message)| + 1 + |original|
    ensures t[..|ValueOf(message)|] == ValueOf(message) && t[|ValueOf(message)|] == '\n'
    ensures t[|ValueOf(message)| + 1..] == original
    ensures message.None? ==> t[..5] == "null\n"
    ensures message == Some("") ==> t == "\n" + original
  {
    ValueOf(message) + "\n" + original
  }

  /** Text of the runtime exception raised when a message supplier throws. */
  function ProducerFailureText(message: JString, original: string): (t: string)
    ensures |t| == |ValueOf(message)| + 20 + |original|
    ensures t[..|ValueOf(message)|] == ValueOf(message)
    ensures t[|ValueOf(message)|..|ValueOf(message)| + 20] == ";\nCondition failed: "
    ensures t[|ValueOf(message)| + 20..] == original
    ensures message.None? ==> t[..4] == "null"
  {
    ValueOf(message) + ";\nCondition failed: " + original
  }

  /** The same configured message gives different texts on the two reporting routes. */
  lemma SeparatorsDiffer(message: string, original: string)
    ensures AssertionText(Some(message), original) != TimeoutText(Some(message), original)
  {
    var a := AssertionText(Some(message), original);
    var t := TimeoutText(Some(message), original);
    assert |a| != |t|;
  }

  /** Which handler a wait shape uses when Awaitility times out. */
  datatype Handling =
    | Rethrowing   // `conditionTimeoutExceptionHandling`: every shape but `untilAsserted`
    | Asserting    // `untilAsserted`: `processMessages`, then an assertion failure

  /** The signal a timeout becomes, and the message fields afterwards. The message fields are consulted in a fixed
      order: errorMessage, callableErrorMessage, exceptionMessage, callableExceptionMessage. */
  function OnTimeout(m: Messages, h: Handling, original: string): (r: (Signal, Messages))
    ensures r.0.OriginalTimeout? <==> h.Rethrowing? && m == NoMessages
    ensures r.0.OriginalTimeout? ==> r.0.text == original && r.1 == m
    ensures r.0.Propagated? ==> r.1 == m
    ensures !r.0.Propagated? ==> r.1 == NoMessages
    ensures r.0.AssertionFailure? ==> |original| <= |r.0.text| && r.0.text[|r.0.text| - |original|..] == original
    ensures h.Asserting? && m == NoMessages ==> r.0 == AssertionFailure(original)
  {
    if m.errorMessage.Some? then
      (AssertionFailure(AssertionText(m.errorMessage, original)), NoMessages)
    else if m.callableErrorMessage.Some? then
      match m.callableErrorMessage.value
      case Yields(t) => (AssertionFailure(AssertionText(t, original)), NoMessages)
      case ThrowsException(e) => (RuntimeError(ProducerFailureText(e, original)), NoMessages)
      case ThrowsError(err) => (Propagated(err), m)
    else if m.exceptionMessage.Some? then
      (TimeoutException(TimeoutText(m.exceptionMessage, original)), NoMessages)
    else if m.callableExceptionMessage.Some? then
      match m.callableExceptionMessage.value
      case Yields(t) => (TimeoutException(TimeoutText(t, original)), NoMessages)
      case ThrowsException(e) => (RuntimeError(ProducerFailureText(e, original)), NoMessages)
      case ThrowsError(err) => (Propagated(err), m)
    else if h.Asserting? then
      (AssertionFailure(AssertionText(Some(""), original)), NoMessages)
    else
      assert m == NoMessages;
      (OriginalTimeout(original), m)
  }

  /** The outcome of one wait and the message fields afterwards. */
  function WaitOutcome<V>(m: Messages, h: Handling, poll: PollResult<V>): (r: (Outcome<V>, Messages))
    ensures poll.Satisfied? ==> r == (Returned(poll.value), m)
    ensures poll.Raised? ==> r == (Threw(Propagated(poll.error)), m)
    ensures poll.TimedOut? ==> r.0.Threw? && (r.1 == m || r.1 == NoMessages)
  {
    match poll
    case Satisfied(v) => (Returned(v), m)
    case Raised(e) => (Threw(Propagated(e)), m)
    case TimedOut(original) =>
      var (s, m') := OnTimeout(m, h, original); (Threw(s), m')
  }

  /** The highest-priority configured field alone decides the signal: fields after it are never consulted. */
  function KeepFirst(m: Messages): (k: Messages)
    ensures AtMostOneSet(k)
  {
    if m.errorMessage.Some? then Messages(m.errorMessage, None, None, None)
    else if m.callableErrorMessage.Some? then Messages(None, m.callableErrorMessage, None, None)
    else if m.exceptionMessage.Some? then Messages(None, None, m.exceptionMessage, None)
    else m
  }

  lemma PriorityOrder(m: Messages, h: Handling, original: string)
    ensures OnTimeout(m, h, original).0 == OnTimeout(KeepFirst(m), h, original).0
  {
  }

  /** Every handled timeout keeps the invariant of `Await`. */
  lemma TimeoutKeepsInvariant(m: Messages, h: Handling, original: string)
    requires AtMostOneSet(m)
    ensures AtMostOneSet(OnTimeout(m, h, original).1)
  {
  }

  /** After a timeout that was reported (not passed through), a later timeout behaves as on a fresh `Await`:
      no stale message leaks into the next wait. */
  lemma NoMessageLeaksAfterTimeout(m: Messages, h1: Handling, o1: string, h2: Handling, o2: string)
    requires !OnTimeout(m, h1, o1).0.Propagated?
    ensures OnTimeout(OnTimeout(m, h1, o1).1, h2, o2) == OnTimeout(NoMessages, h2, o2)
  {
  }

  /** A successful wait does not clear a configured message: a later timeout still reports it. */
  lemma MessageSurvivesSuccess<V>(m: Messages, h: Handling, v: V, original: string)
    ensures WaitOutcome(m, h, Satisfied(v)).1 == m
    ensures OnTimeout(WaitOutcome(m, h, Satisfied(v)).1, h, original) == OnTimeout(m, h, original)
  {
  }
}

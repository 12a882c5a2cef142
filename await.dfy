/**
 * The `Await` wrapper around Awaitility. An object holds:
 *  - a `ConditionFactory`, modelled as the builder calls applied to it;
 *  - four nullable fields that decide how a timeout is reported.
 *
 * The Java methods return `this` for chaining, and so do these. Where Java throws, these methods return the
 * thrown signal as an `Outcome`.
 */
module AwaitClass {
  import opened Wrappers
  import opened JavaLang
  import opened AwaitSpec

  class Await {
    var factory: seq<ConfigStep>
    var errorMessage: JString
    var callableErrorMessage: Option<Producer>
    var exceptionMessage: JString
    var callableExceptionMessage: Option<Producer>

    /** The four message fields as one value. */
    function Pending(): Messages
      reads this
    {
      Messages(errorMessage, callableErrorMessage, exceptionMessage, callableExceptionMessage)
    }

    ghost predicate Valid()
      reads this
    {
      AtMostOneSet(Pending())
    }

    /** `new Await()`: no timeout of its own, the two default ignore rules, no message. */
    constructor ()
      ensures Valid() && Pending() == NoMessages
      ensures factory == DEFAULT_IGNORES
    {
      factory := [IgnoreExceptionOf(StaleElementReference), IgnoreExceptionOf(NoSuchElement)];
      errorMessage, callableErrorMessage, exceptionMessage, callableExceptionMessage := None, None, None, None;
    }

    /** `new Await(long timeoutInMs)`: a timeout, a fixed poll interval taken from the staircase, the two
        default ignore rules, no message. */
    constructor WithTimeout(timeoutInMs: int64)
      ensures Valid() && Pending() == NoMessages
      ensures factory == TimedSteps(timeoutInMs)
    {
      var pollInterval: int64;
      if timeoutInMs >= 10000 {
        pollInterval := 1000;
      } else if timeoutInMs > 3000 {
        pollInterval := 500;
      } else if timeoutInMs > 1000 {
        pollInterval := 300;
      } else {
        pollInterval := 200;
      }
      factory := [ TimeoutOf(Duration(timeoutInMs, Milliseconds)),
                   PollIntervalOf(FixedInterval(Duration(pollInterval, Milliseconds))),
                   IgnoreExceptionOf(StaleElementReference),
                   IgnoreExceptionOf(NoSuchElement) ];
      errorMessage, callableErrorMessage, exceptionMessage, callableExceptionMessage := None, None, None, None;
    }

    /** `Await.waitFor(int seconds)`: rejects 0 and more than 1000 seconds. Otherwise it builds an `Await`
        whose timeout is the `int` product `seconds * 1000`, widened to `long`. */
    static method WaitFor(seconds: int32) returns (r: Result<Await, string>)
      ensures r.Failure? ==> WaitForTimeoutMs(seconds) == Failure(r.error)
      ensures r.Success? ==> WaitForTimeoutMs(seconds).Success?
      ensures r.Success? ==> fresh(r.value) && r.value.Valid() && r.value.Pending() == NoMessages
      ensures r.Success? ==> r.value.factory == TimedSteps(WaitForTimeoutMs(seconds).value as int as int64)
    {
      if seconds > 1000 || seconds == 0 {
        return Failure("Waiter timeout set to " + IntToString(seconds as int) + "s. Is it a typo?");
      }
      var await := new Await.WithTimeout(IntMul(seconds, 1000) as int as int64);
      return Success(await);
    }

    // ------------------------------------------------------------ failure configuration

    /** `forgetErrorMessages`: clears the four message fields. */
    method ForgetErrorMessages()
      modifies this
      ensures Valid()
      ensures Pending() == NoMessages && factory == old(factory)
    {
      errorMessage := None;
      callableErrorMessage := None;
      exceptionMessage := None;
      callableExceptionMessage := None;
    }

    /** `withError(String)`: a timeout becomes a TestNG assertion failure with this message. */
    method WithError(failMessage: JString) returns (self: Await)
      modifies this
      ensures self == this && factory == old(factory)
      ensures Pending() == Messages(failMessage, None, None, None)
      ensures Valid() && (failMessage.Some? ==> SetCount(Pending()) == 1)
    {
      ForgetErrorMessages();
      errorMessage := failMessage;
      self := this;
    }

    /** `withError(Callable<String>)`: as `WithError`, with the message computed when the wait fails. */
    method WithErrorFrom(callableFailMessage: Option<Producer>) returns (self: Await)
      modifies this
      ensures self == this && factory == old(factory)
      ensures Pending() == Messages(None, callableFailMessage, None, None)
      ensures Valid() && (callableFailMessage.Some? ==> SetCount(Pending()) == 1)
    {
      ForgetErrorMessages();
      callableErrorMessage := callableFailMessage;
      self := this;
    }

    /** `withException(String)`: a timeout becomes a new timeout exception carrying this message. */
    method WithException(customExceptionMessage: JString) returns (self: Await)
      modifies this
      ensures self == this && factory == old(factory)
      ensures Pending() == Messages(None, None, customExceptionMessage, None)
      ensures Valid() && (customExceptionMessage.Some? ==> SetCount(Pending()) == 1)
    {
      ForgetErrorMessages();
      exceptionMessage := customExceptionMessage;
      self := this;
    }

    /** `withException(Callable<String>)`: as `WithException`, with the message computed when the wait fails. */
    method WithExceptionFrom(callableCustomExceptionMessage: Option<Producer>) returns (self: Await)
      modifies this
      ensures self == this && factory == old(factory)
      ensures Pending() == Messages(None, None, None, callableCustomExceptionMessage)
      ensures Valid() && (callableCustomExceptionMessage.Some? ==> SetCount(Pending()) == 1)
    {
      ForgetErrorMessages();
      callableExceptionMessage := callableCustomExceptionMessage;
      self := this;
    }

    // ------------------------------------------------------------ condition factory configuration

    /** Appends one builder call to the condition factory; the message fields stay as they are. */
    method Configure(step: ConfigStep) returns (self: Await)
      requires Valid()
      modifies this
      ensures Valid()
      ensures self == this && factory == old(factory) + [step] && Pending() == old(Pending())
    {
      factory := factory + [step];
      self := this;
    }

    /** `atLeast`, all four overloads; the `int` and `long` ones pass milliseconds. */
    method AtLeast(timeout: Duration) returns (self: Await)
      requires Valid()
      modifies this
      ensures Valid()
      ensures self == this && factory == old(factory) + [AtLeastOf(timeout)] && Pending() == old(Pending())
    {
      self := Configure(AtLeastOf(timeout));
    }

    /** `atMost`, all four overloads; the `int` and `long` ones pass milliseconds. */
    method AtMost(timeout: Duration) returns (self: Await)
      requires Valid()
      modifies this
      ensures Valid()
      ensures self == this && factory == old(factory) + [AtMostOf(timeout)] && Pending() == old(Pending())
    {
      self := Configure(AtMostOf(timeout));
    }

    /** `between`, both overloads. */
    method Between(atLeast: Duration, atMost: Duration) returns (self: Await)
      requires Valid()
      modifies this
      ensures Valid()
      ensures self == this && factory == old(factory) + [BetweenOf(atLeast, atMost)] && Pending() == old(Pending())
    {
      self := Configure(BetweenOf(atLeast, atMost));
    }

    method PollDelay(pollDelay: Duration) returns (self: Await)
      requires Valid()
      modifies this
      ensures Valid()
      ensures self == this && factory == old(factory) + [PollDelayOf(pollDelay)] && Pending() == old(Pending())
    {
      self := Configure(PollDelayOf(pollDelay));
    }

    /** `pollInterval(PollInterval)`. */
    method PollIntervalStrategy(pollInterval: PollInterval) returns (self: Await)
      requires Valid()
      modifies this
      ensures Valid()
      ensures self == this && factory == old(factory) + [PollIntervalOf(pollInterval)] && Pending() == old(Pending())
    {
      self := Configure(PollIntervalOf(pollInterval));
    }

    /** `pollInterval(long, TimeUnit)`, and `pollInterval(long)` with milliseconds. */
    method PollIntervalAmount(pollInterval: int64, unit: TimeUnit) returns (self: Await)
      requires Valid()
      modifies this
      ensures Valid()
      ensures self == this && factory == old(factory) + [PollIntervalIn(pollInterval, unit)]
      ensures Pending() == old(Pending())
    {
      self := Configure(PollIntervalIn(pollInterval, unit));
    }

    method IgnoreExceptionsInstanceOf(exceptionType: ExceptionKind) returns (self: Await)
      requires Valid()
      modifies this
      ensures Valid()
      ensures self == this && factory == old(factory) + [IgnoreInstancesOf(exceptionType)]
      ensures Pending() == old(Pending())
    {
      self := Configure(IgnoreInstancesOf(exceptionType));
    }

    method IgnoreException(exceptionType: ExceptionKind) returns (self: Await)
      requires Valid()
      modifies this
      ensures Valid()
      ensures self == this && factory == old(factory) + [IgnoreExceptionOf(exceptionType)]
      ensures Pending() == old(Pending())
    {
      self := Configure(IgnoreExceptionOf(exceptionType));
    }

    method IgnoreExceptions() returns (self: Await)
      requires Valid()
      modifies this
      ensures Valid()
      ensures self == this && factory == old(factory) + [IgnoreAll] && Pending() == old(Pending())
    {
      self := Configure(IgnoreAll);
    }

    /** `ignoreNoExceptions`: a filter that matches no exception. */
    method IgnoreNoExceptions() returns (self: Await)
      requires Valid()
      modifies this
      ensures Valid()
      ensures self == this && factory == old(factory) + [IgnoreMatching(NeverMatches)]
      ensures Pending() == old(Pending())
    {
      self := IgnoreExceptionsMatching(NeverMatches);
    }

    /** `ignoreExceptionsMatching`, for a Hamcrest matcher and for a predicate. */
    method IgnoreExceptionsMatching(filter: ExceptionFilter) returns (self: Await)
      requires Valid()
      modifies this
      ensures Valid()
      ensures self == this && factory == old(factory) + [IgnoreMatching(filter)] && Pending() == old(Pending())
    {
      self := Configure(IgnoreMatching(filter));
    }

    method DontCatchUncaughtExceptions() returns (self: Await)
      requires Valid()
      modifies this
      ensures Valid()
      ensures self == this && factory == old(factory) + [DontCatchUncaught] && Pending() == old(Pending())
    {
      self := Configure(DontCatchUncaught);
    }

    method ConditionEvaluationListener(listener: nat) returns (self: Await)
      requires Valid()
      modifies this
      ensures Valid()
      ensures self == this && factory == old(factory) + [ListenerOf(listener)] && Pending() == old(Pending())
    {
      self := Configure(ListenerOf(listener));
    }

    // ------------------------------------------------------------ readability no-ops

    method And() returns (self: Await)
      ensures self == this
    {
      self := this;
    }

    method With() returns (self: Await)
      ensures self == this
    {
      self := this;
    }

    method Then() returns (self: Await)
      ensures self == this
    {
      self := this;
    }

    method Given() returns (self: Await)
      ensures self == this
    {
      self := this;
    }

    // ------------------------------------------------------------ timeout handling

    /** `throwAssertionError(String, ex)`: clears the messages, then fails the test. */
    method ThrowAssertionError(message: JString, original: string) returns (s: Signal)
      requires Valid()
      modifies this
      ensures Valid()
      ensures s == AssertionFailure(AssertionText(message, original))
      ensures Pending() == NoMessages && factory == old(factory)
    {
      var error := AssertionText(message, original);
      ForgetErrorMessages();
      s := AssertionFailure(error);
    }

    /** `throwAssertionError(Callable, ex)`. If the supplier throws an `Exception`, the messages are cleared and a
        runtime exception is raised. If it throws any other `Throwable`, that passes through and the messages
        stay as they are. */
    method ThrowAssertionErrorFrom(message: Producer, original: string) returns (s: Signal)
      requires Valid()
      modifies this
      ensures Valid()
      ensures message.Yields? ==> s == AssertionFailure(AssertionText(message.text, original))
      ensures message.ThrowsException? ==> s == RuntimeError(ProducerFailureText(message.message, original))
      ensures message.ThrowsError? ==> s == Propagated(message.error) && Pending() == old(Pending())
      ensures !message.ThrowsError? ==> Pending() == NoMessages
      ensures factory == old(factory)
    {
      match message
      case Yields(text) =>
        s := ThrowAssertionError(text, original);
      case ThrowsException(e) =>
        ForgetErrorMessages();
        s := RuntimeError(ProducerFailureText(e, original));
      case ThrowsError(err) =>
        s := Propagated(err);
    }

    /** `getTimeoutException(String, ex)`: clears the messages and builds a new timeout exception. */
    method GetTimeoutException(message: JString, original: string) returns (s: Signal)
      requires Valid()
      modifies this
      ensures Valid()
      ensures s == TimeoutException(TimeoutText(message, original))
      ensures Pending() == NoMessages && factory == old(factory)
    {
      var toThrow := TimeoutException(TimeoutText(message, original));
      ForgetErrorMessages();
      s := toThrow;
    }

    /** `getTimeoutException(Callable, ex)`, with the same treatment of a throwing supplier as
        `ThrowAssertionErrorFrom`. */
    method GetTimeoutExceptionFrom(message: Producer, original: string) returns (s: Signal)
      requires Valid()
      modifies this
      ensures Valid()
      ensures message.Yields? ==> s == TimeoutException(TimeoutText(message.text, original))
      ensures message.ThrowsException? ==> s == RuntimeError(ProducerFailureText(message.message, original))
      ensures message.ThrowsError? ==> s == Propagated(message.error) && Pending() == old(Pending())
      ensures !message.ThrowsError? ==> Pending() == NoMessages
      ensures factory == old(factory)
    {
      match message
      case Yields(text) =>
        s := GetTimeoutException(text, original);
      case ThrowsException(e) =>
        ForgetErrorMessages();
        s := RuntimeError(ProducerFailureText(e, original));
      case ThrowsError(err) =>
        s := Propagated(err);
    }

    /** `processMessages`: the first configured field, in priority order, decides what is thrown. With none
        configured it returns normally (`None`). */
    method ProcessMessages(original: string) returns (thrown: Option<Signal>)
      requires Valid()
      modifies this
      ensures Valid()
      ensures old(Pending()) == NoMessages ==> thrown == None && Pending() == NoMessages
      ensures old(Pending()) != NoMessages ==>
                thrown.Some? && (thrown.value, Pending()) == OnTimeout(old(Pending()), Rethrowing, original)
      ensures factory == old(factory)
    {
      if errorMessage.Some? {
        var s := ThrowAssertionError(errorMessage, original);
        thrown := Some(s);
      } else if callableErrorMessage.Some? {
        var s := ThrowAssertionErrorFrom(callableErrorMessage.value, original);
        thrown := Some(s);
      } else if exceptionMessage.Some? {
        var s := GetTimeoutException(exceptionMessage, original);
        thrown := Some(s);
      } else if callableExceptionMessage.Some? {
        var s := GetTimeoutExceptionFrom(callableExceptionMessage.value, original);
        thrown := Some(s);
      } else {
        thrown := None;
      }
    }

    /** `conditionTimeoutExceptionHandling`: the configured report, else the original timeout rethrown. */
    method ConditionTimeoutExceptionHandling(original: string) returns (s: Signal)
      requires Valid()
      modifies this
      ensures Valid()
      ensures (s, Pending()) == OnTimeout(old(Pending()), Rethrowing, original)
      ensures factory == old(factory)
    {
      var thrown := ProcessMessages(original);
      if thrown.Some? {
        s := thrown.value;
      } else {
        s := OriginalTimeout(original);
      }
    }

    // ------------------------------------------------------------ wait shapes

    /** The `try { ... } catch (ConditionTimeoutException ex)` shared by every wait shape but `untilAsserted`. */
    method Attempt<V>(poll: PollResult<V>) returns (o: Outcome<V>)
      requires Valid()
      modifies this
      ensures Valid()
      ensures (o, Pending()) == WaitOutcome(old(Pending()), Rethrowing, poll)
      ensures factory == old(factory)
    {
      match poll
      case Satisfied(v) =>
        o := Returned(v);
      case Raised(e) =>
        o := Threw(Propagated(e));
      case TimedOut(original) =>
        var s := ConditionTimeoutExceptionHandling(original);
        o := Threw(s);
    }

    /** `untilCall(T, Matcher)`. */
    method UntilCall<V>(poll: PollResult<V>) returns (o: Outcome<V>)
      requires Valid()
      modifies this
      ensures Valid()
      ensures (o, Pending()) == WaitOutcome(old(Pending()), Rethrowing, poll)
      ensures factory == old(factory)
    {
      o := Attempt(poll);
    }

    /** `until(Callable, Matcher)`, and `until(Callable, Predicate)`, which wraps the predicate in a matcher. */
    method Until<V>(poll: PollResult<V>) returns (o: Outcome<V>)
      requires Valid()
      modifies this
      ensures Valid()
      ensures (o, Pending()) == WaitOutcome(old(Pending()), Rethrowing, poll)
      ensures factory == old(factory)
    {
      o := Attempt(poll);
    }

    /** `until(Callable<Boolean>)`. */
    method UntilTrueCondition(poll: PollResult<()>) returns (o: Outcome<()>)
      requires Valid()
      modifies this
      ensures Valid()
      ensures (o, Pending()) == WaitOutcome(old(Pending()), Rethrowing, poll)
      ensures factory == old(factory)
    {
      o := Attempt(poll);
    }

    /** `untilTrue(AtomicBoolean)` when `target` is true, `untilFalse(AtomicBoolean)` when it is false. */
    method UntilFlag(target: bool, poll: PollResult<()>) returns (o: Outcome<()>)
      requires Valid()
      modifies this
      ensures Valid()
      ensures (o, Pending()) == WaitOutcome(old(Pending()), Rethrowing, poll)
      ensures factory == old(factory)
    {
      o := Attempt(poll);
    }

    /** `untilGot(Callable<WebElement>)`, which waits until the callable returns an element. */
    method UntilGot<V>(poll: PollResult<V>) returns (o: Outcome<V>)
      requires Valid()
      modifies this
      ensures Valid()
      ensures (o, Pending()) == WaitOutcome(old(Pending()), Rethrowing, poll)
      ensures factory == old(factory)
    {
      o := Attempt(poll);
    }

    /** `untilAsserted`. After `processMessages` it always fails the test. With no message configured, the
        assertion text is the original timeout text alone. */
    method UntilAsserted(poll: PollResult<()>) returns (o: Outcome<()>)
      requires Valid()
      modifies this
      ensures Valid()
      ensures (o, Pending()) == WaitOutcome(old(Pending()), Asserting, poll)
      ensures factory == old(factory)
    {
      match poll
      case Satisfied(v) =>
        o := Returned(v);
      case Raised(e) =>
        o := Threw(Propagated(e));
      case TimedOut(original) =>
        var thrown := ProcessMessages(original);
        if thrown.Some? {
          o := Threw(thrown.value);
        } else {
          var s := ThrowAssertionError(Some(""), original);
          o := Threw(s);
        }
    }
  }
}

/**
 * The lifecycle of one job run (`Job::perform`): `execute` runs under a
 * temporary error handler that turns fatal user and recoverable errors into
 * a `Loops\Exception`; a `Loops\Exception` goes to the job's `exception`
 * hook, which swallows it or lets it be rethrown; the previous handler is
 * reinstated on the way out.
 */
module JobLifecycle {
  import opened Wrappers
  import opened Php

  /** How a call into job code ended. */
  datatype Outcome<T> = Returns(value: T) | Throws(exc: Exc) | RaisesError(error: PhpError)

  /** How `perform` ended; `Fatal` means PHP stopped the script. */
  datatype PerformOutcome = Returned(result: Value) | Threw(exc: Exc) | Fatal(error: PhpError)

  /** Calls into the job's overridable methods. */
  datatype HookCall = SetUpCall | Execute(args: seq<Value>) | HandleException(exc: Exc) | TearDownCall

  /** The levels the temporary handler takes. */
  const TRAPPED_LEVELS: ErrorLevel := E_USER_ERROR | E_RECOVERABLE_ERROR

  /** The handler in force while `execute` and the `exception` hook run. */
  const PERFORM_HANDLER: ErrorHandler := Installed(JobErrorClosure, TRAPPED_LEVELS)

  /** The exception the temporary handler throws for an error. */
  function ErrorException(err: PhpError): Exc {
    LoopsException("PHP Error: " + err.message + " in " + err.file + " on line " + NatToString(err.line))
  }

  /** A call's outcome as seen under `handler`: an error that the job's
   *  closure takes comes out as the exception the closure throws. */
  function UnderHandler<T>(o: Outcome<T>, handler: ErrorHandler): Outcome<T> {
    if o.RaisesError? && handler.Installed? && handler.callable == JobErrorClosure
       && handler.levels & o.error.level != 0
    then Throws(ErrorException(o.error))
    else o
  }

  /** The default `exception` hook: it handles nothing and throws nothing. */
  function DefaultExceptionHook(e: Exc): (handled: Outcome<bool>)
    ensures handled.Returns? && !handled.value
  {
    Returns(false)
  }

  /** What `perform` ends with, given how `execute` ended and the hook. */
  function PerformResult(executed: Outcome<Value>, hook: Exc -> Outcome<bool>): PerformOutcome {
    match UnderHandler(executed, PERFORM_HANDLER)
    case Returns(v) => Returned(v)
    case RaisesError(err) => Fatal(err)
    case Throws(e) =>
      if !e.LoopsException? then Threw(e)
      else
        match UnderHandler(hook(e), PERFORM_HANDLER)
        case Returns(handled) => if handled then Returned(Null) else Threw(e)
        case Throws(e2) => Threw(e2)
        case RaisesError(err) => Fatal(err)
  }

  /** The calls `perform` makes into the job, in order. */
  function PerformCalls(args: seq<Value>, executed: Outcome<Value>): (calls: seq<HookCall>)
    ensures 1 <= |calls| <= 2 && calls[0] == Execute(args)
    ensures |calls| == 2 <==> UnderHandler(executed, PERFORM_HANDLER).Throws? && UnderHandler(executed, PERFORM_HANDLER).exc.LoopsException?
    ensures |calls| == 2 ==> calls[1] == HandleException(UnderHandler(executed, PERFORM_HANDLER).exc)
    ensures SetUpCall !in calls && TearDownCall !in calls
  {
    var trapped := UnderHandler(executed, PERFORM_HANDLER);
    [Execute(args)] + if trapped.Throws? && trapped.exc.LoopsException? then [HandleException(trapped.exc)] else []
  }

  /** The handler after `set_error_handler($previous)`: the same callback,
   *  now with PHP's default mask E_ALL. */
  function Restored(previous: ErrorHandler): ErrorHandler {
    HandlerFor(previous.Callback(), E_ALL)
  }

  class Job {
    /** `get_class($this)`. */
    const cls: string
    /** The job's `execute($args)`. */
    const execute: seq<Value> -> Outcome<Value>
    /** The job's `exception($e)` hook. */
    const exceptionHook: Exc -> Outcome<bool>
    var queue: Option<string>
    var args: seq<Value>
    ghost var calls: seq<HookCall>

    constructor (cls: string, execute: seq<Value> -> Outcome<Value>, exceptionHook: Exc -> Outcome<bool>)
      ensures this.cls == cls && this.execute == execute && this.exceptionHook == exceptionHook
      ensures queue == None && args == [] && calls == []
    {
      this.cls := cls;
      this.execute := execute;
      this.exceptionHook := exceptionHook;
      queue := None;
      args := [];
      calls := [];
    }

    /** The default `setUp`: does nothing but be called. */
    method SetUp()
      modifies this`calls
      ensures calls == old(calls) + [SetUpCall]
    {
      calls := calls + [SetUpCall];
    }

    /** The default `tearDown`: does nothing but be called. */
    method TearDown()
      modifies this`calls
      ensures calls == old(calls) + [TearDownCall]
    {
      calls := calls + [TearDownCall];
    }

    method Perform(rt: Runtime) returns (r: PerformOutcome)
      modifies this`calls, rt`errorHandler
      ensures r == PerformResult(execute(args), exceptionHook)
      ensures calls == old(calls) + PerformCalls(args, execute(args))
      ensures !r.Fatal? ==> rt.errorHandler == Restored(old(rt.errorHandler))
    {
      var previous := rt.SetErrorHandler(Some(JobErrorClosure), TRAPPED_LEVELS);
      calls := calls + [Execute(args)];
      var executed := UnderHandler(execute(args), rt.errorHandler);
      if executed.RaisesError? {
        // PHP stops the script: the finally block does not run
        return Fatal(executed.error);
      }
      if executed.Returns? {
        r := Returned(executed.value);
      } else if !executed.exc.LoopsException? {
        r := Threw(executed.exc);
      } else {
        calls := calls + [HandleException(executed.exc)];
        var answer := UnderHandler(exceptionHook(executed.exc), rt.errorHandler);
        if answer.RaisesError? {
          return Fatal(answer.error);
        }
        if answer.Throws? {
          r := Threw(answer.exc);
        } else if answer.value {
          // $result was never assigned: PHP reads it as NULL
          r := Returned(Null);
        } else {
          r := Threw(executed.exc);
        }
      }
      // finally
      var replaced := rt.SetErrorHandler(previous, E_ALL);
    }
  }

  /** If `execute` returns, `perform` returns its result. */
  lemma ReturnsExecuteResult(v: Value, hook: Exc -> Outcome<bool>)
    ensures PerformResult(Returns(v), hook) == Returned(v)
  {
  }

  /** A `Loops\Exception` the hook reports as handled is swallowed. */
  lemma HandledExceptionIsSwallowed(executed: Outcome<Value>, hook: Exc -> Outcome<bool>, e: Exc)
    requires UnderHandler(executed, PERFORM_HANDLER) == Throws(e) && e.LoopsException?
    requires UnderHandler(hook(e), PERFORM_HANDLER) == Returns(true)
    ensures PerformResult(executed, hook) == Returned(Null)
  {
  }

  /** A `Loops\Exception` the hook does not handle is rethrown as it is. */
  lemma UnhandledExceptionIsRethrown(executed: Outcome<Value>, hook: Exc -> Outcome<bool>, e: Exc)
    requires UnderHandler(executed, PERFORM_HANDLER) == Throws(e) && e.LoopsException?
    requires UnderHandler(hook(e), PERFORM_HANDLER) == Returns(false)
    ensures PerformResult(executed, hook) == Threw(e)
  {
  }

  /** With the default hook `perform` ends exactly as `execute` did under
   *  the temporary handler: every exception is rethrown. */
  lemma DefaultHookRethrows(executed: Outcome<Value>)
    ensures PerformResult(executed, DefaultExceptionHook) ==
            match UnderHandler(executed, PERFORM_HANDLER)
            case Returns(v) => Returned(v)
            case Throws(e) => Threw(e)
            case RaisesError(err) => Fatal(err)
  {
  }

  /** Exceptions of other classes bypass the hook and propagate unchanged. */
  lemma ForeignExceptionsBypassHook(args: seq<Value>, e: Exc, hook: Exc -> Outcome<bool>)
    requires !e.LoopsException?
    ensures PerformResult(Throws(e), hook) == Threw(e)
    ensures PerformCalls(args, Throws(e)) == [Execute(args)]
  {
  }

  /** Fatal user errors and recoverable errors become a `Loops\Exception`
   *  and follow the hook path. */
  lemma TrappedErrorsFollowHook(err: PhpError, hook: Exc -> Outcome<bool>)
    requires err.level == E_USER_ERROR || err.level == E_RECOVERABLE_ERROR
    ensures PerformResult(RaisesError(err), hook) == PerformResult(Throws(ErrorException(err)), hook)
    ensures ErrorException(err).LoopsException?
  {
  }

  /** Any other error stops the script. */
  lemma UntrappedErrorsAreFatal(err: PhpError, hook: Exc -> Outcome<bool>)
    requires TRAPPED_LEVELS & err.level == 0
    ensures PerformResult(RaisesError(err), hook) == Fatal(err)
  {
  }

  /** After `perform` the callback in force is the one that was before it. */
  lemma RestoredKeepsCallback(previous: ErrorHandler)
    ensures Restored(previous).Callback() == previous.Callback()
    ensures previous == StandardHandler ==> Restored(previous) == StandardHandler
  {
  }
}

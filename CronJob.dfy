/**
 * `CronJob::nextExecutionTime`: a recurring job whose next time comes from a
 * cron expression. The cron library is an oracle from an expression and the
 * default timezone in force when it is asked to the next run time.
 */
module CronJobs {
  import opened Wrappers
  import opened Php
  import opened Backend
  import opened RecurringJobs

  /** The static `$cron`: a string (five fields or an alias such as
   *  `@daily`) or an array of fields. */
  datatype CronValue = CronString(s: string) | CronFields(fields: seq<string>)

  /** The static properties of one cron job class. */
  datatype CronConfig = CronConfig(cls: string, cron: Option<CronValue>, disabled: bool, timezone: Option<string>)

  /** What the cron library answers, or the exception it throws. */
  datatype CronAnswer = NextRun(ts: Timestamp) | Rejected(exc: Exc)

  /** `(array)$cron`. */
  function AsArray(c: CronValue): seq<string> {
    match c
    case CronString(s) => [s]
    case CronFields(fields) => fields
  }

  /** The expression given to the cron library: `implode(" ", (array)$cron)`. */
  function Expression(c: CronValue): string {
    Implode(' ', AsArray(c))
  }

  /** `if (static::$timezone)`: set and truthy, so neither "" nor "0". */
  predicate OverridesTimezone(config: CronConfig) {
    config.timezone.Some? && !IsEmpty(Str(config.timezone.value))
  }

  function MissingCronMessage(cls: string): string {
    "CronJob: Please declare static property $cron in class '" + cls + "'."
  }

  /** One call of `nextExecutionTime`: its answer, the default timezone
   *  afterwards, the timezones written in between, and the question put to
   *  the cron library (expression and zone in force), if any. */
  datatype CronRun = CronRun(result: NextTime, timezoneAfter: string, writes: seq<string>, asked: Option<(string, string)>)

  /** `nextExecutionTime` as the source has it, starting from default
   *  timezone `timezone`. */
  function RunAsWritten(config: CronConfig, timezone: string, oracle: (string, string) -> CronAnswer): CronRun {
    if config.cron.None? then
      CronRun(NextTimeFails(LoopsException(MissingCronMessage(config.cls))), timezone, [], None)
    else if config.disabled then
      CronRun(NoNextTime, timezone, [], None)
    else
      var expression := Expression(config.cron.value);
      if OverridesTimezone(config) then
        var zone := config.timezone.value;
        match oracle(expression, zone)
        case NextRun(ts) => CronRun(At(ts), timezone, [zone, timezone], Some((expression, zone)))
        case Rejected(e) => CronRun(NextTimeFails(e), zone, [zone], Some((expression, zone)))
      else
        match oracle(expression, timezone)
        case NextRun(ts) => CronRun(At(ts), timezone, [], Some((expression, timezone)))
        case Rejected(e) => CronRun(NextTimeFails(e), timezone, [], Some((expression, timezone)))
  }

  method NextExecutionTime(config: CronConfig, rt: Runtime, oracle: (string, string) -> CronAnswer) returns (r: NextTime)
    modifies rt`defaultTimezone, rt`timezoneWrites
    ensures var run := RunAsWritten(config, old(rt.defaultTimezone), oracle);
            && r == run.result
            && rt.defaultTimezone == run.timezoneAfter
            && rt.timezoneWrites == old(rt.timezoneWrites) + run.writes
  {
    if config.cron.None? {
      return NextTimeFails(LoopsException(MissingCronMessage(config.cls)));
    }
    if config.disabled {
      return NoNextTime;
    }
    var saved := "";
    if OverridesTimezone(config) {
      saved := rt.GetDefaultTimezone();
      rt.SetDefaultTimezone(config.timezone.value);
    }
    var answer := oracle(Expression(config.cron.value), rt.defaultTimezone);
    if answer.Rejected? {
      // the exception leaves before the timezone is set back
      return NextTimeFails(answer.exc);
    }
    if OverridesTimezone(config) {
      rt.SetDefaultTimezone(saved);
    }
    r := At(answer.ts);
  }

  /** A missing `$cron` fails even for a disabled job, before anything else. */
  lemma MissingCronFailsFirst(config: CronConfig, timezone: string, oracle: (string, string) -> CronAnswer)
    requires config.cron.None?
    ensures RunAsWritten(config, timezone, oracle) ==
            CronRun(NextTimeFails(LoopsException(MissingCronMessage(config.cls))), timezone, [], None)
  {
  }

  /** A disabled job answers FALSE without asking the cron library. */
  lemma DisabledNeverAsks(config: CronConfig, timezone: string, oracle: (string, string) -> CronAnswer)
    requires config.cron.Some? && config.disabled
    ensures RunAsWritten(config, timezone, oracle) == CronRun(NoNextTime, timezone, [], None)
  {
  }

  /** A string, an alias included, is handed over unchanged. */
  lemma ExpressionOfString(s: string)
    ensures Expression(CronString(s)) == s
  {
  }

  /** An array of fields is joined with single spaces: splitting the
   *  expression at spaces gives the fields back. */
  lemma {:induction false} ExpressionOfFields(fields: seq<string>)
    requires |fields| >= 1
    requires forall k :: 0 <= k < |fields| ==> ' ' !in fields[k]
    ensures Explode(' ', Expression(CronFields(fields))) == fields
  {
    ExplodeImplode(' ', fields);
  }

  /** With a timezone override that the library accepts, the library is asked
   *  in the overriding zone and the default timezone is set back. */
  lemma OverrideIsRestored(config: CronConfig, timezone: string, oracle: (string, string) -> CronAnswer)
    requires config.cron.Some? && !config.disabled && OverridesTimezone(config)
    requires oracle(Expression(config.cron.value), config.timezone.value).NextRun?
    ensures var run := RunAsWritten(config, timezone, oracle);
            && run.timezoneAfter == timezone
            && run.asked == Some((Expression(config.cron.value), config.timezone.value))
            && run.writes == [config.timezone.value, timezone]
            && run.result == At(oracle(Expression(config.cron.value), config.timezone.value).ts)
  {
  }

  /** Without an override (unset, "" or "0") the default timezone is never
   *  written and the library is asked in the default zone. */
  lemma NoOverrideNeverWrites(config: CronConfig, timezone: string, oracle: (string, string) -> CronAnswer)
    requires !OverridesTimezone(config)
    ensures var run := RunAsWritten(config, timezone, oracle);
            && run.writes == [] && run.timezoneAfter == timezone
            && (run.asked.Some? ==> run.asked.value.1 == timezone)
  {
  }

  /** The source as written: when the library throws under an override, the
   *  override stays in force. */
  lemma TimezoneLeaksWhenRejected(config: CronConfig, timezone: string, oracle: (string, string) -> CronAnswer)
    requires config.cron.Some? && !config.disabled && OverridesTimezone(config)
    requires oracle(Expression(config.cron.value), config.timezone.value).Rejected?
    requires config.timezone.value != timezone
    ensures RunAsWritten(config, timezone, oracle).timezoneAfter != timezone
  {
  }

  /** The evidently intended behaviour: under an override the library is
   *  asked inside a `try` whose `finally` sets the saved timezone back, so
   *  the restoring write happens whether the library answers or throws.
   *  Every other path is the source's. */
  function RunRestoring(config: CronConfig, timezone: string, oracle: (string, string) -> CronAnswer): CronRun {
    if config.cron.None? || config.disabled || !OverridesTimezone(config) then
      RunAsWritten(config, timezone, oracle)
    else
      var expression := Expression(config.cron.value);
      var zone := config.timezone.value;
      var result := match oracle(expression, zone)
                    case NextRun(ts) => At(ts)
                    case Rejected(e) => NextTimeFails(e);
      CronRun(result, timezone, [zone, timezone], Some((expression, zone)))
  }

  /** The corrected run gives the same answer and asks the same question,
   *  and always leaves the default timezone as it found it. It differs from
   *  the source only where the library throws under an override, and there
   *  only by the missing restoring write. */
  lemma RestoringKeepsTimezone(config: CronConfig, timezone: string, oracle: (string, string) -> CronAnswer)
    ensures RunRestoring(config, timezone, oracle).timezoneAfter == timezone
    ensures RunRestoring(config, timezone, oracle).result == RunAsWritten(config, timezone, oracle).result
    ensures RunRestoring(config, timezone, oracle).asked == RunAsWritten(config, timezone, oracle).asked
    ensures RunRestoring(config, timezone, oracle) != RunAsWritten(config, timezone, oracle) ==>
              && config.cron.Some? && !config.disabled && OverridesTimezone(config)
              && oracle(Expression(config.cron.value), config.timezone.value).Rejected?
              && RunRestoring(config, timezone, oracle).writes == RunAsWritten(config, timezone, oracle).writes + [timezone]
  {
  }
}

/**
 * The parts of the PHP runtime the jobs layer relies on: values, exception
 * objects, the process-wide error handler and default timezone, and the
 * string functions `explode` and `implode` for one-character separators.
 */
module Php {
  import opened Wrappers

  /** A PHP value. Floats and associative arrays are not modelled; a JSON
   *  object decodes to an `Object` (a stdClass), which is not an array. */
  datatype Value =
    | Null
    | Bool(b: bool)
    | Int(i: int)
    | Str(s: string)
    | Array(items: seq<Value>)
    | Object(props: seq<(string, Value)>)

  /** PHP's `empty($v)`, which for a defined variable is `!$v`. */
  predicate IsEmpty(v: Value) {
    match v
    case Null => true
    case Bool(b) => !b
    case Int(i) => i == 0
    case Str(s) => s == "" || s == "0"
    case Array(items) => items == []
    case Object(_) => false
  }

  /** An exception object: a `Loops\Exception` (or a subclass of it), or any
   *  other throwable class. Two equal values stand for the same object. */
  datatype Exc =
    | LoopsException(message: string)
    | ForeignException(cls: string, message: string)

  /** Error levels are single bits of PHP's `error_reporting` mask. */
  type ErrorLevel = bv16

  const E_ERROR: ErrorLevel := 0x0001
  const E_CORE_ERROR: ErrorLevel := 0x0010
  const E_COMPILE_ERROR: ErrorLevel := 0x0040
  const E_USER_ERROR: ErrorLevel := 0x0100
  const E_RECOVERABLE_ERROR: ErrorLevel := 0x1000
  const E_ALL: ErrorLevel := 0x7FFF

  /** The levels at which PHP's standard handler stops the script. Warnings,
   *  notices and deprecations are reported and the script goes on, so they
   *  change no outcome and are not errors here. */
  type FatalLevel = l: ErrorLevel
    | l == E_ERROR || l == E_CORE_ERROR || l == E_COMPILE_ERROR || l == E_USER_ERROR || l == E_RECOVERABLE_ERROR
    witness E_ERROR

  /** An error raised by PHP code that would stop the script unless a user
   *  error handler takes it. */
  datatype PhpError = PhpError(level: FatalLevel, message: string, file: string, line: nat)

  /** Error handler callbacks: some user callable, or the closure that
   *  `Job::perform` installs, which throws a `Loops\Exception`. */
  datatype Callable = UserCallable(id: nat) | JobErrorClosure

  datatype ErrorHandler =
    | StandardHandler
    | Installed(callable: Callable, levels: ErrorLevel)
  {
    /** What `set_error_handler` returns about this handler: its callback,
     *  or NULL for PHP's standard handler. */
    function Callback(): Option<Callable> {
      if Installed? then Some(callable) else None
    }
  }

  /** The handler in force after `set_error_handler($callback, $levels)`;
   *  a NULL callback reinstates PHP's standard handler. */
  function HandlerFor(callback: Option<Callable>, levels: ErrorLevel): (h: ErrorHandler)
    ensures h.Callback() == callback
  {
    match callback
    case None => StandardHandler
    case Some(c) => Installed(c, levels)
  }

  /** Process-wide state of one PHP process. */
  class Runtime {
    var errorHandler: ErrorHandler
    var defaultTimezone: string
    /** Every value written with `date_default_timezone_set`, in order. */
    ghost var timezoneWrites: seq<string>

    constructor (timezone: string)
      ensures errorHandler == StandardHandler
      ensures defaultTimezone == timezone && timezoneWrites == []
    {
      errorHandler := StandardHandler;
      defaultTimezone := timezone;
      timezoneWrites := [];
    }

    /** `set_error_handler($callback, $levels)`: returns the previous callback. */
    method SetErrorHandler(callback: Option<Callable>, levels: ErrorLevel) returns (previous: Option<Callable>)
      modifies this`errorHandler
      ensures previous == old(errorHandler).Callback()
      ensures errorHandler == HandlerFor(callback, levels)
    {
      previous := errorHandler.Callback();
      errorHandler := HandlerFor(callback, levels);
    }

    /** `date_default_timezone_get()`. */
    method GetDefaultTimezone() returns (timezone: string)
      ensures timezone == defaultTimezone
    {
      timezone := defaultTimezone;
    }

    /** `date_default_timezone_set($timezone)` for a known zone. */
    method SetDefaultTimezone(timezone: string)
      modifies this`defaultTimezone, this`timezoneWrites
      ensures defaultTimezone == timezone
      ensures timezoneWrites == old(timezoneWrites) + [timezone]
    {
      defaultTimezone := timezone;
      timezoneWrites := timezoneWrites + [timezone];
    }
  }

  /** Decimal notation of a non-negative integer, as PHP interpolates it. */
  function NatToString(n: nat): string
    decreases n
  {
    var digit := "0123456789"[n % 10];
    if n < 10 then [digit] else NatToString(n / 10) + [digit]
  }

  /** `explode($sep, $s)`: the pieces of `s` between occurrences of `sep`;
   *  the empty string gives one empty piece. */
  function Explode(sep: char, s: string): (parts: seq<string>)
    ensures |parts| >= 1
  {
    if s == [] then [""]
    else
      var rest := Explode(sep, s[1..]);
      if s[0] == sep then [""] + rest else [[s[0]] + rest[0]] + rest[1..]
  }

  /** `implode($sep, $parts)`: the parts joined by single separators. */
  function Implode(sep: char, parts: seq<string>): (joined: string)
    ensures parts == [] ==> joined == ""
    ensures parts != [] ==> parts[0] <= joined
    ensures |parts| == 1 ==> joined == parts[0]
    ensures |parts| > 1 ==> |joined| > |parts[0]| && joined[|parts[0]|] == sep
  {
    if parts == [] then ""
    else if |parts| == 1 then parts[0]
    else parts[0] + [sep] + Implode(sep, parts[1..])
  }

  /** Joining the pieces of `explode` gives back the original string. */
  lemma {:induction false} ImplodeExplode(sep: char, s: string)
    ensures Implode(sep, Explode(sep, s)) == s
  {
    if s != [] {
      var rest := Explode(sep, s[1..]);
      ImplodeExplode(sep, s[1..]);
      if s[0] == sep {
        assert Explode(sep, s) == [""] + rest;
        assert Implode(sep, [""] + rest) == "" + [sep] + Implode(sep, rest) by {
          assert ([""] + rest)[1..] == rest;
        }
        assert s == [s[0]] + s[1..];
      } else {
        var parts := [[s[0]] + rest[0]] + rest[1..];
        assert Explode(sep, s) == parts;
        if |rest| == 1 {
          assert parts == [[s[0]] + rest[0]];
          assert s == [s[0]] + s[1..];
        } else {
          assert parts[1..] == rest[1..];
          assert Implode(sep, rest) == rest[0] + [sep] + Implode(sep, rest[1..]);
          assert s == [s[0]] + s[1..];
        }
      }
    }
  }

  /** No piece of `explode` contains the separator. */
  lemma {:induction false} ExplodeHasNoSeparator(sep: char, s: string)
    ensures forall k :: 0 <= k < |Explode(sep, s)| ==> sep !in Explode(sep, s)[k]
  {
    if s != [] {
      ExplodeHasNoSeparator(sep, s[1..]);
      var rest := Explode(sep, s[1..]);
      if s[0] != sep {
        assert sep !in rest[0];
        assert sep !in [s[0]] + rest[0];
      }
    }
  }

  /** A prefix free of the separator extends the first piece. */
  lemma {:induction false} ExplodePrefix(sep: char, p: string, t: string)
    requires sep !in p
    ensures Explode(sep, p + t) == [p + Explode(sep, t)[0]] + Explode(sep, t)[1..]
  {
    if p == [] {
      assert p + t == t;
      assert p + Explode(sep, t)[0] == Explode(sep, t)[0];
      assert [Explode(sep, t)[0]] + Explode(sep, t)[1..] == Explode(sep, t);
    } else {
      var q := p[1..];
      assert (p + t)[0] == p[0] && (p + t)[1..] == q + t;
      assert sep !in q by { assert forall c :: c in q ==> c in p; }
      ExplodePrefix(sep, q, t);
      assert [p[0]] + (q + Explode(sep, t)[0]) == p + Explode(sep, t)[0];
    }
  }

  /** `explode` takes apart what `implode` joins, provided no part holds the
   *  separator and there is at least one part. */
  lemma {:induction false} ExplodeImplode(sep: char, parts: seq<string>)
    requires |parts| >= 1
    requires forall k :: 0 <= k < |parts| ==> sep !in parts[k]
    ensures Explode(sep, Implode(sep, parts)) == parts
  {
    if |parts| == 1 {
      assert parts[0] == parts[0] + "";
      ExplodePrefix(sep, parts[0], "");
    } else {
      var tail := Implode(sep, parts[1..]);
      ExplodeImplode(sep, parts[1..]);
      assert Implode(sep, parts) == parts[0] + ([sep] + tail);
      ExplodePrefix(sep, parts[0], [sep] + tail);
      assert ([sep] + tail)[0] == sep && ([sep] + tail)[1..] == tail;
      var e := Explode(sep, [sep] + tail);
      assert e == [""] + Explode(sep, tail);
      assert e[0] == "" && e[1..] == parts[1..];
      assert parts[0] + e[0] == parts[0];
      assert parts == [parts[0]] + parts[1..];
    }
  }
}

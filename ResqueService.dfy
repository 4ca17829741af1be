/**
 * The `resque` service: a thin wrapper whose magic `__call` forwards every
 * call to the Resque library, first completing a bare job class name given
 * to `enqueue` with the application's `Jobs\` namespace.
 */
module ResqueService {
  import opened Php

  /** The namespace of application jobs, `Jobs\`. */
  const JOBS_NAMESPACE: string := "Jobs\\"

  /** `adjustJobClass($name)` against the set of existing class names. The
   *  result is the name itself or its namespaced form; it names a class
   *  exactly when one of the two does, preferring the name itself. */
  function AdjustJobClass(name: string, classes: set<string>): (r: string)
    ensures r == name || r == JOBS_NAMESPACE + name
    ensures r in classes <==> name in classes || JOBS_NAMESPACE + name in classes
    ensures name in classes ==> r == name
    ensures r != name ==> JOBS_NAMESPACE + name in classes
  {
    if name in classes then name
    else
      var namespaced := JOBS_NAMESPACE + name;
      if namespaced in classes then namespaced else name
  }

  /** Adjusting twice is adjusting once. */
  lemma AdjustJobClassIdempotent(name: string, classes: set<string>)
    ensures AdjustJobClass(AdjustJobClass(name, classes), classes) == AdjustJobClass(name, classes)
  {
  }

  /** A call into the Resque library: `Resque::<name>(...arguments)`. */
  datatype LibraryCall = LibraryCall(name: string, arguments: seq<Value>)

  /** `__call($name, $arguments)`: the library call it makes. Only a
   *  non-empty string at index 1 of an `enqueue` call is rewritten; a
   *  non-string there is forwarded as it is. */
  function Call(name: string, arguments: seq<Value>, classes: set<string>): (c: LibraryCall)
    ensures c.name == name && |c.arguments| == |arguments|
    ensures forall i :: 0 <= i < |arguments| && i != 1 ==> c.arguments[i] == arguments[i]
    ensures name == "enqueue" && |arguments| > 1 && !IsEmpty(arguments[1]) && arguments[1].Str? ==>
              c.arguments[1] == Str(AdjustJobClass(arguments[1].s, classes))
    ensures !(name == "enqueue" && |arguments| > 1 && !IsEmpty(arguments[1]) && arguments[1].Str?) ==>
              c.arguments == arguments
  {
    if name == "enqueue" && |arguments| > 1 && !IsEmpty(arguments[1]) && arguments[1].Str? then
      LibraryCall(name, arguments[1 := Str(AdjustJobClass(arguments[1].s, classes))])
    else
      LibraryCall(name, arguments)
  }

  /** An `enqueue` whose class already exists is forwarded unchanged. */
  lemma CallKeepsExistingClass(queue: Value, cls: string, rest: seq<Value>, classes: set<string>)
    requires cls in classes
    ensures Call("enqueue", [queue, Str(cls)] + rest, classes) == LibraryCall("enqueue", [queue, Str(cls)] + rest)
  {
    var arguments := [queue, Str(cls)] + rest;
    assert arguments[1] == Str(cls);
    assert arguments[1 := Str(cls)] == arguments;
  }

  /** An `enqueue` of a bare name that is no class, whose `Jobs\` form is
   *  one, is forwarded with the namespaced class in its place. */
  lemma CallCompletesBareName(queue: Value, cls: string, rest: seq<Value>, classes: set<string>)
    requires !IsEmpty(Str(cls)) && cls !in classes && JOBS_NAMESPACE + cls in classes
    ensures Call("enqueue", [queue, Str(cls)] + rest, classes)
              == LibraryCall("enqueue", [queue, Str(JOBS_NAMESPACE + cls)] + rest)
  {
    var arguments := [queue, Str(cls)] + rest;
    assert arguments[1] == Str(cls);
    assert arguments[1 := Str(JOBS_NAMESPACE + cls)] == [queue, Str(JOBS_NAMESPACE + cls)] + rest;
  }
}

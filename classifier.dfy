/** The list checks of the handler: is an exception an instance of a type named
    in a configured list, and the application-specific veto hook. */
module Classifier {
  import opened Exceptions

  /** Some entry of the list names the exception's class or one of its
      supertypes. A list that is unset, not an array or empty matches nothing. */
  predicate InList(list: TypeList, e: Exception) {
    list.Some? && |list.value| > 0 && exists t :: t in list.value && InstanceOf(e, t)
  }

  /** `isInList`: scans the list in order and stops at the first entry the
      exception is an instance of. */
  method IsInList(list: TypeList, e: Exception) returns (found: bool)
    ensures found <==> InList(list, e)
  {
    if list.Some? && |list.value| > 0 {
      var types := list.value;
      var i := 0;
      while i < |types|
        invariant 0 <= i <= |types|
        invariant forall j :: 0 <= j < i ==> !InstanceOf(e, types[j])
      {
        if InstanceOf(e, types[i]) {
          return true;
        }
        i := i + 1;
      }
    }
    return false;
  }

  /** `isInDontThrottleList`: the `dontThrottle` setting. */
  method IsInDontThrottleList(cfg: Config, e: Exception) returns (found: bool)
    ensures found <==> InList(cfg.dontThrottle, e)
  {
    found := IsInList(cfg.dontThrottle, e);
  }

  /** `isInDontEmailList`: the `dontEmail` setting. */
  method IsInDontEmailList(cfg: Config, e: Exception) returns (found: bool)
    ensures found <==> InList(cfg.dontEmail, e)
  {
    found := IsInList(cfg.dontEmail, e);
  }

  /** The base `appSpecificDontEmail`: applications override it; the package's
      own version vetoes no exception. */
  function NoAppSpecificDontEmail(e: Exception): bool {
    false
  }
}

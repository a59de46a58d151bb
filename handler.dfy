/** `EmailHandler`: the exception handler whose `shouldMail` decides whether an
    exception is mailed. Its one field of state is the memoised throttle key;
    the cache it throttles through is shared with every other handler. */
module Handler {
  import opened Exceptions
  import opened Fingerprints
  import opened Classifier
  import opened Cache
  import opened Throttling

  class EmailHandler {
    /** `$throttleCacheKey`: unset until the first throttle check computes it. */
    var throttleCacheKey: Option<string>

    /** The store selected by the `throttleCacheDriver` setting. */
    const store: Store

    /** The application's `appSpecificDontEmail` override. */
    const appSpecificDontEmail: Exception -> bool

    ghost predicate Valid()
      reads this
    {
      MemoValid(throttleCacheKey)
    }

    constructor (store: Store, appSpecificDontEmail: Exception -> bool)
      ensures Valid()
      ensures this.store == store && this.appSpecificDontEmail == appSpecificDontEmail
      ensures throttleCacheKey == None
    {
      this.store := store;
      this.appSpecificDontEmail := appSpecificDontEmail;
      throttleCacheKey := None;
    }

    /** `getThrottleCacheKey`: computes the exception's fingerprint the first
        time and returns the stored key on every later call, whatever the
        exception. */
    method GetThrottleCacheKey(e: Exception) returns (key: string)
      requires Valid()
      modifies this`throttleCacheKey
      ensures Valid()
      ensures old(throttleCacheKey).None? ==> key == Fingerprint(e)
      ensures old(throttleCacheKey).Some? ==> key == old(throttleCacheKey).value
      ensures throttleCacheKey == Some(key)
    {
      if throttleCacheKey.None? {
        FingerprintHasPrefix(e);
        throttleCacheKey := Some(StripNonAlnum(ThrottleKeySource(e)));
      }
      key := throttleCacheKey.value;
    }

    /** `throttle`. */
    method Throttle(cfg: Config, e: Exception, now: int) returns (throttled: bool)
      requires Valid()
      modifies this`throttleCacheKey, store
      ensures Valid()
      ensures Step(throttled, store.entries, throttleCacheKey)
           == ThrottleStep(cfg, e, old(store.entries), old(throttleCacheKey), now)
    {
      if !cfg.throttle {
        return false;
      }
      var exempt := IsInDontThrottleList(cfg, e);
      if exempt {
        return false;
      }
      var key := GetThrottleCacheKey(e);
      var present := store.Has(key, now);
      if present {
        return true;
      }
      key := GetThrottleCacheKey(e);
      store.Put(key, 1, MinutesFromNow(now, cfg.throttleDurationMinutes));
      return false;
    }

    /** `globalThrottle`. */
    method GlobalThrottle(cfg: Config, now: int) returns (throttled: bool)
      modifies store
      ensures (throttled, store.entries) == GlobalThrottleStep(cfg, old(store.entries), now)
    {
      if !cfg.globalThrottle {
        return false;
      }
      var present := store.Has(GlobalThrottleCacheKey, now);
      if present {
        var count := store.Get(GlobalThrottleCacheKey, 0, now);
        if count >= cfg.globalThrottleLimit {
          return true;
        }
        store.Increment(GlobalThrottleCacheKey, now);
        return false;
      }
      store.Put(GlobalThrottleCacheKey, 1, MinutesFromNow(now, cfg.globalThrottleDurationMinutes));
      return false;
    }

    /** `shouldMail`: the checks in order, stopping at the first that vetoes the
        mail; the two throttles run only when every earlier check passed. The
        parent handler's `shouldntReport` verdict is passed in. */
    method ShouldMail(cfg: Config, e: Exception, shouldntReport: bool, now: int) returns (mail: bool)
      requires Valid()
      modifies this`throttleCacheKey, store
      ensures Valid()
      ensures Decision(mail, store.entries, throttleCacheKey)
           == Decide(cfg, e, shouldntReport, appSpecificDontEmail(e),
                     old(store.entries), old(throttleCacheKey), now)
      ensures CounterBounded(old(store.entries), cfg.globalThrottleLimit)
          ==> CounterBounded(store.entries, cfg.globalThrottleLimit)
    {
      if CounterBounded(store.entries, cfg.globalThrottleLimit) {
        DecideKeepsBound(cfg, e, shouldntReport, appSpecificDontEmail(e),
                         store.entries, throttleCacheKey, now);
      }
      var veto := !cfg.email
                  || !Truthy(cfg.toEmailAddress)
                  || !Truthy(cfg.fromEmailAddress)
                  || shouldntReport;
      if !veto {
        veto := IsInDontEmailList(cfg, e);
      }
      if !veto {
        veto := appSpecificDontEmail(e);
      }
      if !veto {
        veto := Throttle(cfg, e, now);
      }
      if !veto {
        veto := GlobalThrottle(cfg, now);
      }
      mail := !veto;
    }
  }
}

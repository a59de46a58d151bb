# Mail-or-not decision of `EmailHandler`

This project models the decision engine of the Laravel package
`laravel-email-exceptions`: the `EmailHandler::shouldMail` check that decides
whether a reported exception is mailed, and the two throttles behind it.

- **Vetoes** (`shouldMail`, first five checks): mailing disabled, a missing
  "to" or "from" address (PHP truthiness: unset, empty and `"0"` are missing),
  the parent handler's `shouldntReport`, the `dontEmail` list, and the
  application's `appSpecificDontEmail` hook. None of them touches the cache.
- **Type lists** (`isInList` and its two wrappers): an exception matches a list
  when the list is a non-empty array with an entry naming its class or one of
  its supertypes (`instanceof`).
- **Per-exception throttle** (`throttle`): unless throttling is off or the
  exception is in `dontThrottle`, a present key blocks the mail. A missing key
  is stored for `throttleDurationMinutes` and lets the mail through. The
  window does not slide.
- **Throttle key** (`getThrottleCacheKey`): `'emailException'`, class name,
  message and code run together, with every character outside A-Z, a-z, 0-9
  removed. It is memoised in the handler's `throttleCacheKey` field. Once set,
  the same key is used for every later exception on that handler instance.
- **Global throttle** (`globalThrottle`): a counter under
  `email_exception_global` is created at 1 for `globalThrottleDurationMinutes`.
  It blocks once its value reaches `globalThrottleLimit` and is otherwise
  incremented, keeping its expiry.

Module layout:

- `Exceptions` (exceptions.dfy): the exception as class name, supertypes,
  message and code (an integer, or a string such as a database exception's
  SQLSTATE); the configuration record.
- `Fingerprints` (fingerprints.dfy): the key filter and the throttle key, with
  their properties.
- `Classifier` (classifier.dfy): the list checks and the package's own
  `appSpecificDontEmail` hook, `NoAppSpecificDontEmail`.
- `Cache` (cache.dfy): the TTL cache, as a map from key to value and expiry
  minute, and the `Store` class with `has`, `get`, `put` and `increment`.
  `getDateTimeMinutesFromNow(n)` is `MinutesFromNow(now, n) = now + n`.
- `Throttling` (throttling.dfy): each check as a function of the cache, the
  memoised key and the current minute, and the lemmas about single calls and
  about sequences of reports (`Replay`: one fresh handler per request, one
  shared cache).
- `Handler` (handler.dfy): the `EmailHandler` class. Its methods run the
  checks step by step against the `Store`. Each method's postcondition equates
  its result and new state with the matching `Throttling` function.

Three behaviours of the code worth knowing:

- The throttle key is memoised per handler instance: a later, different
  exception on the same handler is checked against the first exception's key
  (`MemoThrottlesOtherException`).
- The global counter starts at 1, so the first report of a window is mailed
  even when the limit is 0 or negative. The ceiling is the larger of 1 and the
  limit (`GlobalCeiling`); no window, whatever its reports, mails more than that
  (`WindowCeiling`).
- A report stopped by the global ceiling has still registered its throttle key,
  although it was never mailed (`GlobalBlockStillRegistersKey`).

## Model

| member | source | states |
|---|---|---|
| Fingerprints.StripNonAlnum | src/Exceptions/EmailHandler.php:244-248 | the filtered string is no longer than the input and holds only ASCII letters and digits |
| Fingerprints.StripIsSubsequence | src/Exceptions/EmailHandler.php:244-248 | the filter only deletes characters: the result is a subsequence of the input, in the original order |
| Fingerprints.StripCounts | src/Exceptions/EmailHandler.php:244-248 | each letter or digit occurs in the result exactly as often as in the input; every other character occurs zero times |
| Fingerprints.StripConcat | src/Exceptions/EmailHandler.php:244-248 | filtering a concatenation is the concatenation of the filtered parts |
| Fingerprints.StripKeepsAlnum | src/Exceptions/EmailHandler.php:244-248 | a string of letters and digits passes through the filter unchanged |
| Fingerprints.StripIdempotent | src/Exceptions/EmailHandler.php:244-248 | filtering twice gives the same key as filtering once |
| Fingerprints.PrefixIsAlnum | src/Exceptions/EmailHandler.php:247 | the `emailException` prefix survives the filter intact |
| Fingerprints.Digits | src/Exceptions/EmailHandler.php:247 | the string form of a code's magnitude is a non-empty run of decimal digits |
| Fingerprints.DigitsRoundTrip | src/Exceptions/EmailHandler.php:247 | reading the digits back gives the number, so different magnitudes give different digit strings |
| Fingerprints.StripDecimalText | src/Exceptions/EmailHandler.php:244-248 | the filter removes the minus sign of a negative code, leaving the digits of its absolute value |
| Fingerprints.StripCodeText | src/Exceptions/EmailHandler.php:244-248 | what of the code survives the filter is the digits of an integer code's magnitude, or the letters and digits of a string code |
| Fingerprints.Fingerprint | src/Exceptions/EmailHandler.php:244-248 | the throttle key contains only letters and digits and is no longer than the unfiltered text |
| Fingerprints.FingerprintParts | src/Exceptions/EmailHandler.php:244-248 | the key is the prefix, then the filtered class name, then the filtered message, then the filtered code |
| Fingerprints.FingerprintHasPrefix | src/Exceptions/EmailHandler.php:241-248 | every key starts with `emailException`, so it is never empty; a memoised key is therefore never mistaken for unset by the loose `== null` test |
| Fingerprints.SameTripleSameFingerprint | src/Exceptions/EmailHandler.php:244-248 | exceptions with the same class, message and code get the same key |
| Fingerprints.FingerprintSplit | src/Exceptions/EmailHandler.php:244-248 | the key is the prefix, the filtered class name and message run together, and the filtered code |
| Fingerprints.FingerprintCollides | src/Exceptions/EmailHandler.php:244-248 | exceptions that differ only in punctuation, in where class name and message meet, in the sign of an integer code, or in an integer code versus the same digits as a string share one key |
| Fingerprints.FingerprintSeparates | src/Exceptions/EmailHandler.php:244-248 | with the same filtered class name and message, equal keys mean the codes leave the same letters and digits, and two integer codes have equal magnitude |
| Classifier.IsInList | src/Exceptions/EmailHandler.php:262-277 | true iff the list is a non-empty array with an entry naming the exception's class or a supertype; an unset, non-array or empty list gives false |
| Classifier.IsInDontThrottleList | src/Exceptions/EmailHandler.php:285-289 | true iff the exception matches the `dontThrottle` setting |
| Classifier.IsInDontEmailList | src/Exceptions/EmailHandler.php:297-301 | true iff the exception matches the `dontEmail` setting |
| Cache.Store.Has | src/Exceptions/EmailHandler.php:151-153 | a key counts as present iff it is stored and the current minute is before its expiry |
| Cache.Store.Get | src/Exceptions/EmailHandler.php:156-161 | a present key gives its stored value; a missing or expired key gives the default |
| Cache.Store.Put | src/Exceptions/EmailHandler.php:174-182 | the key gets the new value and expiry; no other key changes |
| Cache.Store.Increment | src/Exceptions/EmailHandler.php:166-168 | the key's value goes up by exactly one and its expiry stays; no other key changes |
| Throttling.AlnumKeyIsNotGlobalKey | src/Exceptions/EmailHandler.php:23 | no throttle key can equal the global counter key, so the two throttles never write each other's entry |
| Throttling.KeyFor | src/Exceptions/EmailHandler.php:237-253 | the key used is the memoised one when set, otherwise the exception's fingerprint; it is non-empty and holds only letters and digits |
| Throttling.BaseHookVetoes | src/Exceptions/EmailHandler.php:100-105 | with the package's own `appSpecificDontEmail`, which returns false, an exception is vetoed exactly when one of the first four checks holds |
| Throttling.VetoLeavesStateUntouched | src/Exceptions/EmailHandler.php:71-87 | when email is off, an address is missing, `shouldntReport` holds, the exception is in `dontEmail` or the hook vetoes, no mail and neither the cache nor the memo changes |
| Throttling.ThrottleOutcomes | src/Exceptions/EmailHandler.php:197-229 | off or exempt: not throttled, nothing changes; key present: throttled, cache unchanged, expiry not extended; key missing: stored with expiry now plus the duration, not throttled, no other key changes |
| Throttling.GlobalThrottleOutcomes | src/Exceptions/EmailHandler.php:143-188 | off: no block, cache unchanged; counter missing: set to 1 with a fresh expiry; at or over the limit: block, cache unchanged; under it: one more, same expiry, nothing else changes |
| Throttling.ThrottledSkipsGlobalCounter | src/Exceptions/EmailHandler.php:82-84 | when the per-exception throttle blocks, the global throttle is not consulted and the cache, counter included, is unchanged |
| Throttling.MailLeavesKeysPresent | src/Exceptions/EmailHandler.php:82-91 | a mailed exception passed every veto and leaves its throttle key and the global counter present (for positive durations) |
| Throttling.GlobalBlockStillRegistersKey | src/Exceptions/EmailHandler.php:82-84 | an exception stopped by the global ceiling is not mailed but its throttle key has been stored |
| Throttling.MemoNeverChanges | src/Exceptions/EmailHandler.php:241-252 | once the handler's key is set, no later call changes it, whatever the exception |
| Throttling.MemoThrottlesOtherException | src/Exceptions/EmailHandler.php:237-253 | on a handler that memoised one exception's key, a different exception is throttled while that key is present |
| Throttling.GlobalStepKeepsBound | src/Exceptions/EmailHandler.php:156-182 | the global check keeps the counter between 1 and the larger of 1 and the limit |
| Throttling.DecideKeepsBound | src/Exceptions/EmailHandler.php:68-92 | one `shouldMail` call keeps the counter bound and leaves a memoised key of letters and digits |
| Throttling.Replay | src/Exceptions/EmailHandler.php:68-92 | sequential reports give exactly one verdict per report |
| Throttling.ReplayKeepsBound | src/Exceptions/EmailHandler.php:156-178 | under any sequence of reports the global counter never exceeds the larger of 1 and the limit |
| Throttling.CountMails | src/Exceptions/EmailHandler.php:68-92 | the number of mailed reports is at most the number of reports |
| Throttling.DecideCountsMail | src/Exceptions/EmailHandler.php:68-92 | inside the global window one report keeps the counter's expiry, and raises its value by one exactly when the report is mailed, which happens only below the limit |
| Throttling.MailsWithinCeiling | src/Exceptions/EmailHandler.php:156-178 | inside a window whose counter stands at c, any sequence of reports (vetoed, throttled, exempt from throttling or repeated) is mailed at most max(1, limit) - c more times |
| Throttling.WindowCeiling | src/Exceptions/EmailHandler.php:143-188 | from a point where the counter has expired or was never stored, any sequence of reports within the next `globalThrottleDurationMinutes` is mailed at most max(1, limit) times |
| Throttling.CeilingFrom | src/Exceptions/EmailHandler.php:156-178 | with the counter at c inside its window, the i-th eligible report whose key is distinct and not present on arrival is mailed iff c + i is below the ceiling |
| Throttling.GlobalCeiling | src/Exceptions/EmailHandler.php:143-188 | from a fresh window, eligible reports with distinct keys not present on arrival are mailed exactly while fewer than the larger of 1 and the limit have been counted |
| Throttling.ThrottleWindow | src/Exceptions/EmailHandler.php:197-229 | the same exception twice: mailed the first time, mailed the second time iff the throttle duration has passed |
| Throttling.DisabledNeverMutates | src/Exceptions/EmailHandler.php:71 | with email disabled, no report of any sequence is mailed and the cache never changes |
| Handler.EmailHandler.constructor | src/Exceptions/EmailHandler.php:28 | a new handler has no memoised key |
| Handler.EmailHandler.GetThrottleCacheKey | src/Exceptions/EmailHandler.php:237-253 | the first call stores and returns the exception's fingerprint; every later call returns the stored key and leaves the field unchanged |
| Handler.EmailHandler.Throttle | src/Exceptions/EmailHandler.php:197-229 | result, cache and memo afterwards are those of `ThrottleStep` on the state before |
| Handler.EmailHandler.GlobalThrottle | src/Exceptions/EmailHandler.php:143-188 | result and cache afterwards are those of `GlobalThrottleStep` on the cache before |
| Handler.EmailHandler.ShouldMail | src/Exceptions/EmailHandler.php:68-92 | verdict, cache and memo afterwards are those of `Decide`, checks short-circuiting in source order; the counter bound is kept |

## Left out

- `report` and `callParentReport` (src/Exceptions/EmailHandler.php:38-59): delegation to the framework's parent handler and its logging.
- `mailException` (src/Exceptions/EmailHandler.php:112-135): building and sending the mail (`Mail::send`, the request, the user, the user agent, the default subject) is I/O.
- `shouldntReport` belongs to the framework's parent handler, which is not part of this model. `ShouldMail` takes its verdict as a boolean parameter.
- `appSpecificDontEmail` overrides are modelled as a function supplied when the handler is built. Other subclass overrides are not modelled.
- The clock is a parameter: a whole number of minutes, the same for every cache call within one `shouldMail`. Seconds, and time passing between `has` and `put`/`increment`, are not modelled.
- Cache driver selection (`throttleCacheDriver`) and the cache's storage engine are not modelled. One abstract `Store` stands for the selected store.
- The per-exception entry's stored value `true` is modelled as 1. Only its presence is ever read.
- A `put` whose expiry is not in the future deletes the key in the framework. The model stores an already-expired entry instead, which is equally absent to every later `has`.
- Cache.Store.Increment: requires the key to be present. The framework's increment of a missing key (it creates a counter with no expiry) is not modelled, because the handler only increments right after `has` found the key.
- Cache-store failures are not modelled. A `has`, `get`, `put` or `increment` that throws, for example because the Redis or database store is unreachable, propagates out of `throttle`, `globalThrottle` and `shouldMail`, and no mail is sent. The model's `Store` never fails.
- Concurrency: the has-then-put and get-then-increment races between workers sharing the cache are not modelled. Reports are handled one after another.
- Loose PHP comparisons of the boolean settings (`!= true`, `== false`) are modelled as booleans. Address settings are strings whose truthiness is modelled.
- Class names in `instanceof` are compared exactly. PHP's case-insensitive class names and leading backslashes are not modelled.
- Sequences of reports (`Replay`) use one fresh handler per request. A handler shared across reports is covered by the single-call lemmas (`MemoNeverChanges`, `MemoThrottlesOtherException`, `DecideKeepsBound`).
- src/views/emailException.blade.php (the mail's HTML template) and src/EmailExceptionsServiceProvider.php (framework wiring) hold no decision logic.

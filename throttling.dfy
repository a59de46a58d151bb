/** The mail-or-not decision as functions of the cache contents, the handler's
    memoised throttle key and the current minute, with the properties the
    handler's callers rely on. */
module Throttling {
  import opened Exceptions
  import opened Fingerprints
  import opened Classifier
  import opened Cache

  const GlobalThrottleCacheKey: string := "email_exception_global"

  /** The global counter key contains underscores, so no throttle key (letters
      and digits only) can ever overwrite it. */
  lemma AlnumKeyIsNotGlobalKey(k: string)
    requires AllAlnum(k)
    ensures k != GlobalThrottleCacheKey
  {
    assert !IsAlnum(GlobalThrottleCacheKey[5]);
  }

  /** What the handler's `throttleCacheKey` field may hold: unset, or a
      non-empty key of letters and digits, as `Fingerprint` makes. PHP's loose
      `== null` also holds of the empty string, so an empty key would read as
      unset; the field never holds one. */
  predicate MemoValid(memo: Option<string>) {
    memo.Some? ==> AllAlnum(memo.value) && |memo.value| > 0
  }

  /** `getThrottleCacheKey`: the memoised key if there is one, otherwise the
      exception's own fingerprint. */
  function KeyFor(memo: Option<string>, e: Exception): (key: string)
    requires MemoValid(memo)
    ensures AllAlnum(key) && |key| > 0
    ensures memo.Some? ==> key == memo.value
  {
    if memo.Some? then memo.value
    else
      FingerprintHasPrefix(e);
      Fingerprint(e)
  }

  /** The first five checks of `shouldMail`, none of which touches the cache. */
  predicate Vetoed(cfg: Config, e: Exception, shouldntReport: bool, appVeto: bool) {
    !cfg.email
    || !Truthy(cfg.toEmailAddress)
    || !Truthy(cfg.fromEmailAddress)
    || shouldntReport
    || InList(cfg.dontEmail, e)
    || appVeto
  }

  /** With the package's own hook, the veto is exactly the first four checks. */
  lemma BaseHookVetoes(cfg: Config, e: Exception, shouldntReport: bool)
    ensures Vetoed(cfg, e, shouldntReport, NoAppSpecificDontEmail(e))
        <==> !cfg.email || !Truthy(cfg.toEmailAddress) || !Truthy(cfg.fromEmailAddress)
             || shouldntReport || InList(cfg.dontEmail, e)
  {
  }

  predicate ThrottleApplies(cfg: Config, e: Exception) {
    cfg.throttle && !InList(cfg.dontThrottle, e)
  }

  /** The outcome of one throttle check: whether it blocks the mail, the cache
      afterwards and the handler's memoised key afterwards. */
  datatype Step = Step(throttled: bool, entries: Entries, memo: Option<string>)

  /** `throttle`: has-then-put on the exception's key. */
  function ThrottleStep(cfg: Config, e: Exception, m: Entries, memo: Option<string>, now: int): Step
    requires MemoValid(memo)
  {
    if !ThrottleApplies(cfg, e) then Step(false, m, memo)
    else
      var key := KeyFor(memo, e);
      if Present(m, key, now) then Step(true, m, Some(key))
      else Step(false, m[key := Entry(1, MinutesFromNow(now, cfg.throttleDurationMinutes))], Some(key))
  }

  /** `globalThrottle`: create at 1, block at the limit, otherwise count one more. */
  function GlobalThrottleStep(cfg: Config, m: Entries, now: int): (bool, Entries) {
    var key := GlobalThrottleCacheKey;
    if !cfg.globalThrottle then (false, m)
    else if !Present(m, key, now) then
      (false, m[key := Entry(1, MinutesFromNow(now, cfg.globalThrottleDurationMinutes))])
    else if m[key].value >= cfg.globalThrottleLimit then (true, m)
    else (false, m[key := Entry(m[key].value + 1, m[key].expiry)])
  }

  datatype Decision = Decision(mail: bool, entries: Entries, memo: Option<string>)

  /** `shouldMail`: the vetoes, then the per-exception throttle, then the global
      throttle, each evaluated only when everything before it let the mail
      through. */
  function Decide(cfg: Config, e: Exception, shouldntReport: bool, appVeto: bool,
                  m: Entries, memo: Option<string>, now: int): Decision
    requires MemoValid(memo)
  {
    if Vetoed(cfg, e, shouldntReport, appVeto) then Decision(false, m, memo)
    else
      var t := ThrottleStep(cfg, e, m, memo, now);
      if t.throttled then Decision(false, t.entries, t.memo)
      else
        var (g, m') := GlobalThrottleStep(cfg, t.entries, now);
        Decision(!g, m', t.memo)
  }

  // ---------------------------------------------------------------------------
  // One call
  // ---------------------------------------------------------------------------

  /** A vetoed exception is not mailed, and neither the cache nor the memoised
      key is touched. */
  lemma VetoLeavesStateUntouched(cfg: Config, e: Exception, shouldntReport: bool, appVeto: bool,
                                 m: Entries, memo: Option<string>, now: int)
    requires MemoValid(memo)
    requires Vetoed(cfg, e, shouldntReport, appVeto)
    ensures Decide(cfg, e, shouldntReport, appVeto, m, memo, now) == Decision(false, m, memo)
  {
  }

  /** The three outcomes of `throttle`, and that it writes nothing but its key. */
  lemma ThrottleOutcomes(cfg: Config, e: Exception, m: Entries, memo: Option<string>, now: int)
    requires MemoValid(memo)
    ensures var t := ThrottleStep(cfg, e, m, memo, now);
      && (!ThrottleApplies(cfg, e) ==> t == Step(false, m, memo))
      && (ThrottleApplies(cfg, e) && Present(m, KeyFor(memo, e), now) ==> t.throttled && t.entries == m)
      && (ThrottleApplies(cfg, e) && !Present(m, KeyFor(memo, e), now) ==>
            !t.throttled
            && t.entries[KeyFor(memo, e)] == Entry(1, now + cfg.throttleDurationMinutes)
            && forall k :: k != KeyFor(memo, e) ==> (k in t.entries <==> k in m) && (k in m ==> t.entries[k] == m[k]))
  {
  }

  /** The four outcomes of `globalThrottle`. */
  lemma GlobalThrottleOutcomes(cfg: Config, m: Entries, now: int)
    ensures var (g, m') := GlobalThrottleStep(cfg, m, now);
      var key := GlobalThrottleCacheKey;
      && (!cfg.globalThrottle ==> !g && m' == m)
      && (cfg.globalThrottle && !Present(m, key, now) ==>
            !g && m' == m[key := Entry(1, now + cfg.globalThrottleDurationMinutes)])
      && (cfg.globalThrottle && Present(m, key, now) && m[key].value >= cfg.globalThrottleLimit ==>
            g && m' == m)
      && (cfg.globalThrottle && Present(m, key, now) && m[key].value < cfg.globalThrottleLimit ==>
            !g && m'[key].value == m[key].value + 1 && m'[key].expiry == m[key].expiry
            && m' == m[key := m'[key]])
  {
  }

  /** When the per-exception throttle blocks, the global throttle is never
      consulted: the global counter keeps its value. */
  lemma ThrottledSkipsGlobalCounter(cfg: Config, e: Exception, shouldntReport: bool, appVeto: bool,
                                    m: Entries, memo: Option<string>, now: int)
    requires MemoValid(memo)
    requires !Vetoed(cfg, e, shouldntReport, appVeto)
    requires ThrottleStep(cfg, e, m, memo, now).throttled
    ensures var d := Decide(cfg, e, shouldntReport, appVeto, m, memo, now);
      !d.mail && d.entries == m
  {
  }

  /** A mailed exception leaves its throttle key (when throttling applies) and
      the global counter (when enabled) present, provided the configured
      durations are positive. */
  lemma MailLeavesKeysPresent(cfg: Config, e: Exception, shouldntReport: bool, appVeto: bool,
                              m: Entries, memo: Option<string>, now: int)
    requires MemoValid(memo)
    requires cfg.throttleDurationMinutes > 0 && cfg.globalThrottleDurationMinutes > 0
    requires Decide(cfg, e, shouldntReport, appVeto, m, memo, now).mail
    ensures var d := Decide(cfg, e, shouldntReport, appVeto, m, memo, now);
      && !Vetoed(cfg, e, shouldntReport, appVeto)
      && (ThrottleApplies(cfg, e) ==> Present(d.entries, KeyFor(memo, e), now))
      && (cfg.globalThrottle ==> Present(d.entries, GlobalThrottleCacheKey, now))
  {
  }

  /** An exception stopped by the global ceiling has nevertheless registered its
      throttle key: until that key expires the same exception is throttled, even
      though it was never mailed. */
  lemma GlobalBlockStillRegistersKey(cfg: Config, e: Exception, shouldntReport: bool, appVeto: bool,
                                     m: Entries, memo: Option<string>, now: int)
    requires MemoValid(memo)
    requires !Vetoed(cfg, e, shouldntReport, appVeto) && ThrottleApplies(cfg, e)
    requires !Present(m, KeyFor(memo, e), now)
    requires cfg.globalThrottle && Present(m, GlobalThrottleCacheKey, now)
    requires m[GlobalThrottleCacheKey].value >= cfg.globalThrottleLimit
    ensures var d := Decide(cfg, e, shouldntReport, appVeto, m, memo, now);
      && !d.mail
      && KeyFor(memo, e) in d.entries
      && d.entries[KeyFor(memo, e)] == Entry(1, now + cfg.throttleDurationMinutes)
  {
  }

  /** Once set, the memoised key never changes, whatever exception comes next. */
  lemma MemoNeverChanges(cfg: Config, e: Exception, shouldntReport: bool, appVeto: bool,
                         m: Entries, k: string, now: int)
    requires MemoValid(Some(k))
    ensures Decide(cfg, e, shouldntReport, appVeto, m, Some(k), now).memo == Some(k)
  {
  }

  /** On one handler instance, a second, different exception is checked against
      the first exception's key: while that key is present the second exception
      is throttled, whatever its own fingerprint. */
  lemma MemoThrottlesOtherException(cfg: Config, first: Exception, e: Exception,
                                    m: Entries, now: int)
    requires !Vetoed(cfg, e, false, false) && ThrottleApplies(cfg, e)
    requires Present(m, Fingerprint(first), now)
    ensures MemoValid(Some(Fingerprint(first)))
         && !Decide(cfg, e, false, false, m, Some(Fingerprint(first)), now).mail
  {
    FingerprintHasPrefix(first);
  }

  // ---------------------------------------------------------------------------
  // The global counter bound
  // ---------------------------------------------------------------------------

  function Max(a: int, b: int): int {
    if a < b then b else a
  }

  /** The global counter, whenever stored, lies between 1 and the larger of 1
      and the limit. */
  predicate CounterBounded(m: Entries, limit: int) {
    GlobalThrottleCacheKey in m ==> 1 <= m[GlobalThrottleCacheKey].value <= Max(1, limit)
  }

  lemma GlobalStepKeepsBound(cfg: Config, m: Entries, now: int)
    requires CounterBounded(m, cfg.globalThrottleLimit)
    ensures CounterBounded(GlobalThrottleStep(cfg, m, now).1, cfg.globalThrottleLimit)
  {
  }

  /** One `shouldMail` call keeps the counter bound, whatever the exception, the
      memoised key and the time. */
  lemma DecideKeepsBound(cfg: Config, e: Exception, shouldntReport: bool, appVeto: bool,
                         m: Entries, memo: Option<string>, now: int)
    requires MemoValid(memo)
    requires CounterBounded(m, cfg.globalThrottleLimit)
    ensures CounterBounded(Decide(cfg, e, shouldntReport, appVeto, m, memo, now).entries, cfg.globalThrottleLimit)
    ensures MemoValid(Decide(cfg, e, shouldntReport, appVeto, m, memo, now).memo)
  {
  }

  // ---------------------------------------------------------------------------
  // Sequences of reports
  // ---------------------------------------------------------------------------

  /** One reported exception: the time of the report and the two opaque
      predicates (the parent handler's `shouldntReport` and the application's
      `appSpecificDontEmail`) evaluated on it. */
  datatype Report = Report(e: Exception, now: int, shouldntReport: bool, appVeto: bool)

  datatype Run = Run(mails: seq<bool>, entries: Entries)

  /** Reports handled one after another, each by a fresh handler instance (one
      per PHP request), all sharing one cache. */
  function Replay(cfg: Config, rs: seq<Report>, m: Entries): (r: Run)
    ensures |r.mails| == |rs|
    decreases |rs|
  {
    if rs == [] then Run([], m)
    else
      var d := Decide(cfg, rs[0].e, rs[0].shouldntReport, rs[0].appVeto, m, None, rs[0].now);
      var rest := Replay(cfg, rs[1..], d.entries);
      Run([d.mail] + rest.mails, rest.entries)
  }

  /** Under any sequence of reports the global counter never exceeds the larger
      of 1 and the limit. */
  lemma {:induction false} ReplayKeepsBound(cfg: Config, rs: seq<Report>, m: Entries)
    requires CounterBounded(m, cfg.globalThrottleLimit)
    ensures CounterBounded(Replay(cfg, rs, m).entries, cfg.globalThrottleLimit)
    decreases |rs|
  {
    if rs != [] {
      var d := Decide(cfg, rs[0].e, rs[0].shouldntReport, rs[0].appVeto, m, None, rs[0].now);
      DecideKeepsBound(cfg, rs[0].e, rs[0].shouldntReport, rs[0].appVeto, m, None, rs[0].now);
      ReplayKeepsBound(cfg, rs[1..], d.entries);
    }
  }

  /** The number of reports mailed. */
  function CountMails(mails: seq<bool>): (n: nat)
    ensures n <= |mails|
  {
    if mails == [] then 0 else (if mails[0] then 1 else 0) + CountMails(mails[1..])
  }

  /** One `shouldMail` call inside the global window: the counter is still
      there with the same expiry, and a mail counts it up by one. */
  lemma {:induction false} DecideCountsMail(cfg: Config, r: Report, m: Entries, c: int, expiry: int)
    requires cfg.globalThrottle
    requires GlobalThrottleCacheKey in m && m[GlobalThrottleCacheKey] == Entry(c, expiry)
    requires r.now < expiry
    ensures var d := Decide(cfg, r.e, r.shouldntReport, r.appVeto, m, None, r.now);
      && GlobalThrottleCacheKey in d.entries
      && d.entries[GlobalThrottleCacheKey].expiry == expiry
      && d.entries[GlobalThrottleCacheKey].value == (if d.mail then c + 1 else c)
      && (d.mail ==> c < cfg.globalThrottleLimit)
  {
  }

  /** Inside a global window whose counter stands at `c`, any sequence of
      reports, vetoed, throttled or not, is mailed at most as many more times
      as the ceiling leaves. */
  lemma {:induction false} MailsWithinCeiling(cfg: Config, rs: seq<Report>, m: Entries, c: int, expiry: int)
    requires cfg.globalThrottle
    requires GlobalThrottleCacheKey in m && m[GlobalThrottleCacheKey] == Entry(c, expiry)
    requires 1 <= c <= Max(1, cfg.globalThrottleLimit)
    requires forall i :: 0 <= i < |rs| ==> rs[i].now < expiry
    ensures CountMails(Replay(cfg, rs, m).mails) <= Max(1, cfg.globalThrottleLimit) - c
    decreases |rs|
  {
    if rs != [] {
      var r := rs[0];
      var d := Decide(cfg, r.e, r.shouldntReport, r.appVeto, m, None, r.now);
      DecideCountsMail(cfg, r, m, c, expiry);
      var c' := d.entries[GlobalThrottleCacheKey].value;
      MailsWithinCeiling(cfg, rs[1..], d.entries, c', expiry);
      assert Replay(cfg, rs, m).mails[1..] == Replay(cfg, rs[1..], d.entries).mails;
    }
  }

  /** The global limit over a whole window: when the counter has expired (or was
      never stored) at `start`, the reports of the next
      `globalThrottleDurationMinutes` minutes, whatever they are, are mailed at
      most the larger of 1 and the limit times. */
  lemma {:induction false} WindowCeiling(cfg: Config, rs: seq<Report>, m: Entries, start: int)
    requires cfg.globalThrottle
    requires GlobalThrottleCacheKey in m ==> m[GlobalThrottleCacheKey].expiry <= start
    requires forall i :: 0 <= i < |rs| ==>
      start <= rs[i].now < start + cfg.globalThrottleDurationMinutes
    ensures CountMails(Replay(cfg, rs, m).mails) <= Max(1, cfg.globalThrottleLimit)
    decreases |rs|
  {
    if rs != [] {
      var r := rs[0];
      var d := Decide(cfg, r.e, r.shouldntReport, r.appVeto, m, None, r.now);
      AlnumKeyIsNotGlobalKey(Fingerprint(r.e));
      assert Replay(cfg, rs, m).mails[1..] == Replay(cfg, rs[1..], d.entries).mails;
      if d.mail {
        var expiry := r.now + cfg.globalThrottleDurationMinutes;
        assert d.entries[GlobalThrottleCacheKey] == Entry(1, expiry);
        MailsWithinCeiling(cfg, rs[1..], d.entries, 1, expiry);
      } else {
        assert GlobalThrottleCacheKey in d.entries ==> d.entries[GlobalThrottleCacheKey].expiry <= start;
        WindowCeiling(cfg, rs[1..], d.entries, start);
      }
    }
  }

  predicate Eligible(cfg: Config, r: Report) {
    !Vetoed(cfg, r.e, r.shouldntReport, r.appVeto)
  }

  /** The reports are eligible, fall inside the global window that ends at
      `expiry`, and have distinct fingerprints none of which is present in the
      cache when its report arrives. */
  predicate FreshWindow(cfg: Config, rs: seq<Report>, m: Entries, expiry: int) {
    && (forall i :: 0 <= i < |rs| ==> Eligible(cfg, rs[i]))
    && (forall i :: 0 <= i < |rs| ==> rs[i].now < expiry)
    && (forall i :: 0 <= i < |rs| ==> !Present(m, Fingerprint(rs[i].e), rs[i].now))
    && (forall i, j :: 0 <= i < j < |rs| ==> Fingerprint(rs[i].e) != Fingerprint(rs[j].e))
  }

  /** With the counter at `c` inside its window, report `i` is mailed exactly
      when `c + i` is still below the ceiling. */
  lemma {:induction false} CeilingFrom(cfg: Config, rs: seq<Report>, m: Entries, c: int, expiry: int)
    requires cfg.globalThrottle
    requires GlobalThrottleCacheKey in m && m[GlobalThrottleCacheKey] == Entry(c, expiry)
    requires 1 <= c <= Max(1, cfg.globalThrottleLimit)
    requires FreshWindow(cfg, rs, m, expiry)
    ensures forall i :: 0 <= i < |rs| ==>
      Replay(cfg, rs, m).mails[i] == (c + i < Max(1, cfg.globalThrottleLimit))
    decreases |rs|
  {
    if rs != [] {
      var r := rs[0];
      var key := Fingerprint(r.e);
      AlnumKeyIsNotGlobalKey(key);
      var d := Decide(cfg, r.e, r.shouldntReport, r.appVeto, m, None, r.now);
      var t := ThrottleStep(cfg, r.e, m, None, r.now);
      assert !t.throttled;
      assert t.entries[GlobalThrottleCacheKey] == Entry(c, expiry);
      assert t.entries.Keys <= m.Keys + {key};
      var c' := if c < cfg.globalThrottleLimit then c + 1 else c;
      assert d.mail == (c < Max(1, cfg.globalThrottleLimit));
      assert d.entries[GlobalThrottleCacheKey] == Entry(c', expiry);
      assert d.entries.Keys <= m.Keys + {key, GlobalThrottleCacheKey};
      assert FreshWindow(cfg, rs[1..], d.entries, expiry) by {
        forall i | 0 <= i < |rs[1..]|
          ensures !Present(d.entries, Fingerprint(rs[1..][i].e), rs[1..][i].now)
        {
          assert rs[1..][i] == rs[i + 1];
          AlnumKeyIsNotGlobalKey(Fingerprint(rs[i + 1].e));
        }
      }
      CeilingFrom(cfg, rs[1..], d.entries, c', expiry);
      forall i | 1 <= i < |rs|
        ensures Replay(cfg, rs, m).mails[i] == (c + i < Max(1, cfg.globalThrottleLimit))
      {
        assert Replay(cfg, rs, m).mails[i] == Replay(cfg, rs[1..], d.entries).mails[i - 1];
      }
    }
  }

  /** The global ceiling: starting a fresh window, eligible reports with
      distinct fingerprints are mailed while fewer than the larger of 1 and the
      limit have been counted, and then no more until the window expires. */
  lemma GlobalCeiling(cfg: Config, rs: seq<Report>, m: Entries)
    requires cfg.globalThrottle && |rs| > 0
    requires !Present(m, GlobalThrottleCacheKey, rs[0].now)
    requires FreshWindow(cfg, rs, m, rs[0].now + cfg.globalThrottleDurationMinutes)
    ensures forall i :: 0 <= i < |rs| ==>
      Replay(cfg, rs, m).mails[i] == (i < Max(1, cfg.globalThrottleLimit))
  {
    var r := rs[0];
    var expiry := r.now + cfg.globalThrottleDurationMinutes;
    var key := Fingerprint(r.e);
    AlnumKeyIsNotGlobalKey(key);
    var d := Decide(cfg, r.e, r.shouldntReport, r.appVeto, m, None, r.now);
    assert d.mail;
    assert d.entries[GlobalThrottleCacheKey] == Entry(1, expiry);
    assert d.entries.Keys <= m.Keys + {key, GlobalThrottleCacheKey};
    assert FreshWindow(cfg, rs[1..], d.entries, expiry) by {
      forall i | 0 <= i < |rs[1..]|
        ensures !Present(d.entries, Fingerprint(rs[1..][i].e), rs[1..][i].now)
      {
        assert rs[1..][i] == rs[i + 1];
        AlnumKeyIsNotGlobalKey(Fingerprint(rs[i + 1].e));
      }
    }
    CeilingFrom(cfg, rs[1..], d.entries, 1, expiry);
    forall i | 1 <= i < |rs|
      ensures Replay(cfg, rs, m).mails[i] == (i < Max(1, cfg.globalThrottleLimit))
    {
      assert Replay(cfg, rs, m).mails[i] == Replay(cfg, rs[1..], d.entries).mails[i - 1];
    }
  }

  /** The per-exception window: the same exception reported twice, with the
      global throttle off, is mailed the first time and mailed again only once
      the throttle duration has passed since the first report. */
  lemma ThrottleWindow(cfg: Config, r1: Report, r2: Report, m: Entries)
    requires !cfg.globalThrottle
    requires Eligible(cfg, r1) && Eligible(cfg, r2)
    requires ThrottleApplies(cfg, r1.e) && ThrottleApplies(cfg, r2.e)
    requires Fingerprint(r1.e) == Fingerprint(r2.e)
    requires !Present(m, Fingerprint(r1.e), r1.now)
    ensures Replay(cfg, [r1, r2], m).mails
         == [true, r2.now >= r1.now + cfg.throttleDurationMinutes]
  {
    var d := Decide(cfg, r1.e, r1.shouldntReport, r1.appVeto, m, None, r1.now);
    assert d.entries[Fingerprint(r1.e)] == Entry(1, r1.now + cfg.throttleDurationMinutes);
    assert [r1, r2][1..] == [r2];
    assert Replay(cfg, [r2], d.entries).mails == [r2.now >= r1.now + cfg.throttleDurationMinutes];
  }

  /** With email disabled, no sequence of reports is mailed or changes the cache. */
  lemma {:induction false} DisabledNeverMutates(cfg: Config, rs: seq<Report>, m: Entries)
    requires !cfg.email
    ensures Replay(cfg, rs, m) == Run(seq(|rs|, i => false), m)
    decreases |rs|
  {
    if rs != [] {
      DisabledNeverMutates(cfg, rs[1..], m);
      assert [false] + seq(|rs| - 1, i => false) == seq(|rs|, i => false);
    }
  }
}

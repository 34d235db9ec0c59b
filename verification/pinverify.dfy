/** PIN verification with an in-memory limit on failed attempts per client. */
module PinVerify {
  import opened Wrappers
  import opened Text

  const MaxAttempts: nat := 5
  /** Fifteen minutes, in milliseconds. */
  const LockoutDuration: int := 15 * 60 * 1000

  const RequiredMessage: string := "Required"
  const LengthMessage: string := "String must contain exactly 4 character(s)"
  const DigitsMessage: string := "PIN은 4자리 숫자여야 합니다"

  /** A client's failures so far and the clock reading of the last one. */
  datatype Attempt = Attempt(count: nat, lastAttempt: int)

  datatype Outcome =
    | TooManyAttempts(minutes: int)
    | ValidationError(message: string)
    | PinNotSet
    | WrongPin(remaining: nat)
    | Verified

  /** The entries `cleanupOldAttempts` keeps: those at most fifteen minutes old. */
  function Fresh(m: map<string, Attempt>, now: int): (r: map<string, Attempt>)
    ensures forall k :: k in r <==> k in m && now - m[k].lastAttempt <= LockoutDuration
    ensures forall k :: k in r ==> r[k] == m[k]
  {
    map k | k in m && now - m[k].lastAttempt <= LockoutDuration :: m[k]
  }

  /** Cleaning twice at the same instant removes nothing more. */
  lemma FreshIdempotent(m: map<string, Attempt>, now: int)
    ensures Fresh(Fresh(m, now), now) == Fresh(m, now)
  {
  }

  /** The first entry of `x-forwarded-for` (the header up to its first
      comma), or "unknown" when there is none. */
  function ClientKey(forwardedFor: Option<string>): (key: string)
    ensures key != [] && (key == "unknown" || ',' !in key)
    ensures forwardedFor.None? ==> key == "unknown"
    ensures forwardedFor.Some? && (forwardedFor.value == [] || forwardedFor.value[0] == ',') ==> key == "unknown"
    ensures forwardedFor.Some? && forwardedFor.value != [] && forwardedFor.value[0] != ',' ==>
      var h := forwardedFor.value;
      && |key| <= |h| && key == h[..|key|] && ',' !in key
      && (|key| == |h| || h[|key|] == ',')
  {
    match forwardedFor
    case None => "unknown"
    case Some(h) =>
      SplitFirst(h, ',');
      var first := Split(h, ',')[0];
      if first == "" then "unknown" else first
  }

  /** The first issue the body schema reports: the PIN must be present, four
      characters long, and all digits. */
  function PinError(pin: Option<string>): (r: Option<string>)
    ensures r.None? <==> pin.Some? && |pin.value| == 4 && AllDigits(pin.value)
  {
    if pin.None? then Some(RequiredMessage)
    else if |pin.value| != 4 then Some(LengthMessage)
    else if !AllDigits(pin.value) then Some(DigitsMessage)
    else None
  }

  /** `Math.ceil((LOCKOUT_DURATION - elapsed) / 60000)`. */
  function WaitMinutes(elapsed: int): int {
    (LockoutDuration - elapsed + 59999) / 60000
  }

  /** The wait is the least whole number of minutes covering the rest of the
      lockout, between 1 and 15. */
  lemma WaitBounds(elapsed: int)
    requires 0 <= elapsed < LockoutDuration
    ensures 1 <= WaitMinutes(elapsed) <= 15
    ensures (WaitMinutes(elapsed) - 1) * 60000 < LockoutDuration - elapsed <= WaitMinutes(elapsed) * 60000
  {
  }

  /** `Math.max(0, MAX_ATTEMPTS - previous - 1)`. */
  function Remaining(previous: nat): (r: nat)
    ensures r == 0 <==> previous + 1 >= MaxAttempts
    ensures r > 0 ==> r + previous + 1 == MaxAttempts
  {
    if previous + 1 < MaxAttempts then MaxAttempts - previous - 1 else 0
  }

  /** Everything after the lockout check: validate, look up the PIN, and
      record a failure or clear the client's entry. */
  function Checked(m: map<string, Attempt>, key: string, pin: Option<string>, pinHash: Option<string>,
                   checkPin: (string, string) -> bool, now: int): (Outcome, map<string, Attempt>)
  {
    match PinError(pin)
    case Some(message) => (ValidationError(message), m)
    case None =>
      if pinHash.None? then (PinNotSet, m)
      else if !checkPin(pin.value, pinHash.value) then
        var previous := if key in m then m[key].count else 0;
        (WrongPin(Remaining(previous)), m[key := Attempt(previous + 1, now)])
      else (Verified, m - {key})
  }

  /** One POST, as a function of the attempts table before it: the outcome
      and the table after it. */
  function VerifyStep(m: map<string, Attempt>, key: string, pin: Option<string>, pinHash: Option<string>,
                      checkPin: (string, string) -> bool, now: int): (Outcome, map<string, Attempt>)
  {
    var kept := Fresh(m, now);
    if key in kept && kept[key].count >= MaxAttempts then
      var elapsed := now - kept[key].lastAttempt;
      if elapsed < LockoutDuration then (TooManyAttempts(WaitMinutes(elapsed)), kept)
      else Checked(kept - {key}, key, pin, pinHash, checkPin, now)
    else Checked(kept, key, pin, pinHash, checkPin, now)
  }

  /** The module-level `failedAttempts` map. */
  class RateLimiter {
    var failedAttempts: map<string, Attempt>

    constructor()
      ensures failedAttempts == map[]
    {
      failedAttempts := map[];
    }

    /** `cleanupOldAttempts`: delete every entry more than fifteen minutes old. */
    method CleanupOldAttempts(now: int)
      modifies this
      ensures failedAttempts == Fresh(old(failedAttempts), now)
    {
      var keys := failedAttempts.Keys;
      while keys != {}
        invariant keys <= old(failedAttempts).Keys
        invariant keys <= failedAttempts.Keys
        invariant failedAttempts.Keys <= old(failedAttempts).Keys
        invariant forall k :: k in failedAttempts ==> failedAttempts[k] == old(failedAttempts)[k]
        invariant forall k :: k in old(failedAttempts) && k !in keys ==>
          (k in failedAttempts <==> now - old(failedAttempts)[k].lastAttempt <= LockoutDuration)
        decreases keys
      {
        var k :| k in keys;
        if now - failedAttempts[k].lastAttempt > LockoutDuration {
          failedAttempts := failedAttempts - {k};
        }
        keys := keys - {k};
      }
    }

    /** POST: clean up, refuse a locked-out client, validate the body, check
        the PIN (`checkPin` is `verifyPin` against the stored hash) and keep
        the failure count. */
    method Post(forwardedFor: Option<string>, pin: Option<string>, pinHash: Option<string>,
                checkPin: (string, string) -> bool, now: int) returns (o: Outcome)
      modifies this
      ensures (o, failedAttempts) == VerifyStep(old(failedAttempts), ClientKey(forwardedFor), pin, pinHash, checkPin, now)
    {
      CleanupOldAttempts(now);
      var clientIP := ClientKey(forwardedFor);
      if clientIP in failedAttempts && failedAttempts[clientIP].count >= MaxAttempts {
        var elapsed := now - failedAttempts[clientIP].lastAttempt;
        if elapsed < LockoutDuration {
          return TooManyAttempts(WaitMinutes(elapsed));
        }
        failedAttempts := failedAttempts - {clientIP};
      }
      var problem := PinError(pin);
      if problem.Some? {
        return ValidationError(problem.value);
      }
      if pinHash.None? {
        return PinNotSet;
      }
      if !checkPin(pin.value, pinHash.value) {
        var current := if clientIP in failedAttempts then failedAttempts[clientIP] else Attempt(0, 0);
        failedAttempts := failedAttempts[clientIP := Attempt(current.count + 1, now)];
        return WrongPin(Remaining(current.count));
      }
      failedAttempts := failedAttempts - {clientIP};
      return Verified;
    }
  }

  // ---------------------------------------------------------------------
  // Properties of one step and of consecutive steps

  /** A locked-out client within the lockout is refused and the table is only
      cleaned; a lock whose time is up is lifted before the PIN is checked. */
  lemma LockoutRefuses(m: map<string, Attempt>, key: string, pin: Option<string>, pinHash: Option<string>,
                       checkPin: (string, string) -> bool, now: int)
    requires key in m && m[key].count >= MaxAttempts
    ensures 0 <= now - m[key].lastAttempt < LockoutDuration ==>
      VerifyStep(m, key, pin, pinHash, checkPin, now) == (TooManyAttempts(WaitMinutes(now - m[key].lastAttempt)), Fresh(m, now))
    ensures now - m[key].lastAttempt >= LockoutDuration ==>
      VerifyStep(m, key, pin, pinHash, checkPin, now) == Checked(Fresh(m, now) - {key}, key, pin, pinHash, checkPin, now)
  {
    if now - m[key].lastAttempt > LockoutDuration {
      assert Fresh(m, now) - {key} == Fresh(m, now);
    }
  }

  /** Only a wrong PIN records a failure, one more than before, stamped now;
      a correct PIN removes the entry; every other outcome leaves the client's
      entry as cleanup left it. Other clients' entries are only cleaned. */
  lemma StepRecords(m: map<string, Attempt>, key: string, pin: Option<string>, pinHash: Option<string>,
                    checkPin: (string, string) -> bool, now: int)
    ensures var (o, m') := VerifyStep(m, key, pin, pinHash, checkPin, now);
      var kept := Fresh(m, now);
      && (o.WrongPin? ==>
            && key in m' && m'[key].lastAttempt == now
            && m'[key].count == (if key in kept && kept[key].count < MaxAttempts then kept[key].count else 0) + 1
            && o.remaining == Remaining(m'[key].count - 1))
      && (o.Verified? ==> key !in m')
      && ((o.ValidationError? || o.PinNotSet? || o.TooManyAttempts?) ==> (key in m' ==> key in kept && m'[key] == kept[key]))
      && (forall k :: k != key ==> (k in m' <==> k in kept) && (k in m' ==> m'[k] == kept[k]))
  {
  }

  /** The failure that uses up the last attempt locks the client out: for the
      next fifteen minutes every request from it is refused. */
  lemma FifthFailureLocks(m: map<string, Attempt>, key: string, pin: Option<string>, pinHash: Option<string>,
                          checkPin: (string, string) -> bool, now: int,
                          pin': Option<string>, checkPin': (string, string) -> bool, later: int)
    requires VerifyStep(m, key, pin, pinHash, checkPin, now).0 == WrongPin(0)
    requires now <= later < now + LockoutDuration
    ensures VerifyStep(VerifyStep(m, key, pin, pinHash, checkPin, now).1, key, pin', pinHash, checkPin', later).0
      == TooManyAttempts(WaitMinutes(later - now))
  {
    var m' := VerifyStep(m, key, pin, pinHash, checkPin, now).1;
    StepRecords(m, key, pin, pinHash, checkPin, now);
    assert key in m' && m'[key] == Attempt(m'[key].count, now) && m'[key].count >= MaxAttempts;
    LockoutRefuses(m', key, pin', pinHash, checkPin', later);
  }

  /** A correct PIN with no prior entry leaves no trace, and a client without
      failures gets five tries: the first wrong PIN reports four remaining. */
  lemma FirstFailureLeavesFour(m: map<string, Attempt>, key: string, pin: Option<string>, pinHash: Option<string>,
                               checkPin: (string, string) -> bool, now: int)
    requires key !in m
    requires PinError(pin).None? && pinHash.Some? && !checkPin(pin.value, pinHash.value)
    ensures VerifyStep(m, key, pin, pinHash, checkPin, now).0 == WrongPin(4)
    ensures VerifyStep(m, key, pin, pinHash, checkPin, now).1[key] == Attempt(1, now)
  {
  }
}

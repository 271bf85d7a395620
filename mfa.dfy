/** The in-memory MFA code validator of the business backend
    (`pkg/mfa/validator.go`): six-digit codes keyed by e-mail address, each
    with an expiry, an attempt counter and an attempt limit. Time is an integer
    number of seconds passed in as `now`; the random number that
    `crypto/rand.Int` draws is passed in as `random` (None when the reader
    fails). */
module Mfa {
  import opened Wrappers
  import Text

  /** `10 * time.Minute`, in seconds. */
  const CodeTtl: int := 600
  const MaxAttempts: int := 5
  /** The exclusive bound given to `rand.Int`. */
  const CodeSpace: int := 1_000_000

  datatype MfaCode = MfaCode(code: string, expiresAt: int, attempts: int, maxAttempts: int)

  datatype GenerateError = EmailRequired | RandomFailed

  /** Why a verification failed, one constructor per error the Go code returns:
      "email and code are required", "no MFA code found for email", "MFA code
      expired", "max MFA attempts exceeded", "invalid MFA code". */
  datatype VerifyError = MissingInput | NoCodeFound | Expired | AttemptsExceeded | InvalidCode

  datatype Verdict = Verified | Rejected(reason: VerifyError)

  type Store = map<string, MfaCode>

  /** `time.Now().After(expiresAt)`. */
  predicate IsExpired(c: MfaCode, now: int) { now > c.expiresAt }

  // ---------------------------------------------------------------------------
  // Specification of the three operations on the store

  /** One `GenerateCode` call: the returned code and the new store. */
  function Generate(codes: Store, email: string, random: Option<int>, now: int): (r: (Result<string, GenerateError>, Store))
    requires random.Some? ==> 0 <= random.value < CodeSpace
    ensures email == "" ==> r == (Err(EmailRequired), codes)
    ensures email != "" && random.None? ==> r == (Err(RandomFailed), codes)
    ensures r.0.Ok? ==>
      |r.0.value| == 6 && (forall i :: 0 <= i < 6 ==> Text.IsDigit(r.0.value[i]))
      && Text.DigitsValue(r.0.value) == random.value
      && r.1 == codes[email := MfaCode(r.0.value, now + CodeTtl, 0, MaxAttempts)]
  {
    if email == "" then (Err(EmailRequired), codes)
    else if random.None? then (Err(RandomFailed), codes)
    else
      var code := Text.Pad6(random.value);
      (Ok(code), codes[email := MfaCode(code, now + CodeTtl, 0, MaxAttempts)])
  }

  /** One `VerifyCode` call: the verdict and the new store. */
  function Verify(codes: Store, email: string, provided: string, now: int): (r: (Verdict, Store))
    // missing input or missing entry: rejected, store untouched
    ensures email == "" || provided == "" ==> r == (Rejected(MissingInput), codes)
    ensures email != "" && provided != "" && email !in codes ==> r == (Rejected(NoCodeFound), codes)
    // every other call only ever touches the entry for `email`
    ensures forall e :: e != email ==> (e in r.1 <==> e in codes) && (e in r.1 ==> r.1[e] == codes[e])
    // success: the code matched a live, unlocked entry, which is consumed
    ensures r.0 == Verified <==>
      email != "" && provided != "" && email in codes && !IsExpired(codes[email], now)
      && codes[email].attempts < codes[email].maxAttempts && codes[email].code == provided
    ensures r.0 == Verified ==> email !in r.1
  {
    if email == "" || provided == "" then (Rejected(MissingInput), codes)
    else if email !in codes then (Rejected(NoCodeFound), codes)
    else
      var c := codes[email];
      if IsExpired(c, now) then (Rejected(Expired), codes - {email})
      else if c.attempts >= c.maxAttempts then (Rejected(AttemptsExceeded), codes - {email})
      else
        var counted := c.(attempts := c.attempts + 1);
        if counted.code == provided then (Verified, codes - {email})
        else (Rejected(InvalidCode), codes[email := counted])
  }

  /** What `CleanupExpiredCodes` leaves: the entries that are not expired. */
  function Sweep(codes: Store, now: int): (r: Store)
    ensures forall e :: e in r <==> e in codes && !IsExpired(codes[e], now)
    ensures forall e :: e in r ==> r[e] == codes[e]
  {
    map e | e in codes && !IsExpired(codes[e], now) :: codes[e]
  }

  // ---------------------------------------------------------------------------
  // Properties

  /** An expired entry is deleted and the verification fails. */
  lemma ExpiredIsDeleted(codes: Store, email: string, provided: string, now: int)
    requires email != "" && provided != "" && email in codes && IsExpired(codes[email], now)
    ensures Verify(codes, email, provided, now) == (Rejected(Expired), codes - {email})
  {
  }

  /** Once the attempt limit is reached even the right code fails, and the
      entry is removed. */
  lemma LockoutRemovesEntry(codes: Store, email: string, now: int)
    requires email != "" && email in codes && codes[email].code != ""
    requires !IsExpired(codes[email], now) && codes[email].attempts >= codes[email].maxAttempts
    ensures Verify(codes, email, codes[email].code, now) == (Rejected(AttemptsExceeded), codes - {email})
  {
  }

  /** A wrong code reaching the comparison keeps the entry with one more
      attempt counted. */
  lemma WrongCodeCountsAttempt(codes: Store, email: string, provided: string, now: int)
    requires email != "" && provided != "" && email in codes
    requires !IsExpired(codes[email], now) && codes[email].attempts < codes[email].maxAttempts
    requires codes[email].code != provided
    ensures var r := Verify(codes, email, provided, now);
      r.0 == Rejected(InvalidCode) && email in r.1
      && r.1[email] == codes[email].(attempts := codes[email].attempts + 1)
  {
  }

  /** Codes are single use: after a successful verification the same code
      finds no entry. */
  lemma SingleUse(codes: Store, email: string, provided: string, now: int, later: int)
    requires Verify(codes, email, provided, now).0 == Verified
    ensures Verify(Verify(codes, email, provided, now).1, email, provided, later) == (Rejected(NoCodeFound), Verify(codes, email, provided, now).1)
  {
  }

  /** A freshly generated code verifies, with the right input, for the whole
      ten minutes. */
  lemma FreshCodeVerifies(codes: Store, email: string, random: int, now: int, at: int)
    requires email != "" && 0 <= random < CodeSpace && now <= at <= now + CodeTtl
    ensures var g := Generate(codes, email, Some(random), now);
      g.0.Ok? && Verify(g.1, email, g.0.value, at).0 == Verified
  {
    var g := Generate(codes, email, Some(random), now);
    assert |g.0.value| == 6;
  }

  /** Five wrong guesses on a fresh code lock it: the sixth verification fails
      even with the right code. */
  lemma {:induction false} FiveWrongGuessesLock(codes: Store, email: string, random: int, now: int, wrong: string)
    requires email != "" && 0 <= random < CodeSpace && wrong != ""
    requires wrong != Text.Pad6(random)
    ensures var g := Generate(codes, email, Some(random), now);
      var s1 := Verify(g.1, email, wrong, now).1;
      var s2 := Verify(s1, email, wrong, now).1;
      var s3 := Verify(s2, email, wrong, now).1;
      var s4 := Verify(s3, email, wrong, now).1;
      var s5 := Verify(s4, email, wrong, now).1;
      Verify(s5, email, g.0.value, now).0 == Rejected(AttemptsExceeded)
  {
    var g := Generate(codes, email, Some(random), now);
    var code := g.0.value;
    var s1 := Verify(g.1, email, wrong, now).1;
    assert s1[email].attempts == 1;
    var s2 := Verify(s1, email, wrong, now).1;
    assert s2[email].attempts == 2;
    var s3 := Verify(s2, email, wrong, now).1;
    assert s3[email].attempts == 3;
    var s4 := Verify(s3, email, wrong, now).1;
    assert s4[email].attempts == 4;
    var s5 := Verify(s4, email, wrong, now).1;
    assert s5[email] == MfaCode(code, now + CodeTtl, 5, MaxAttempts);
  }

  /** Sweeping at `now` never changes whether a verification at `now`
      succeeds, and it leaves the same store behind. */
  lemma SweepIsUnobservable(codes: Store, email: string, provided: string, now: int)
    ensures Verify(Sweep(codes, now), email, provided, now).0.Verified? == Verify(codes, email, provided, now).0.Verified?
    ensures Sweep(Verify(Sweep(codes, now), email, provided, now).1, now) == Sweep(Verify(codes, email, provided, now).1, now)
  {
    var swept := Sweep(codes, now);
    var a := Verify(swept, email, provided, now);
    var b := Verify(codes, email, provided, now);
    var live := email in codes && !IsExpired(codes[email], now);
    if live {
      assert email in swept && swept[email] == codes[email];
    } else {
      assert email !in swept;
    }
    var x := Sweep(a.1, now);
    var y := Sweep(b.1, now);
    forall e
      ensures (e in x <==> e in y) && (e in x ==> x[e] == y[e])
    {
      if e != email {
        assert (e in swept <==> e in codes && !IsExpired(codes[e], now));
      } else if !live {
        assert e !in x && e !in y;
      }
    }
    assert x == y;
  }

  /** Sweeping twice at the same time is sweeping once. */
  lemma SweepIdempotent(codes: Store, now: int)
    ensures Sweep(Sweep(codes, now), now) == Sweep(codes, now)
  {
  }

  // ---------------------------------------------------------------------------
  // The validator object

  class MfaValidator {
    var codes: Store

    /** `NewMFAValidator`. */
    constructor ()
      ensures codes == map[]
    {
      codes := map[];
    }

    /** `GenerateCode`: stores a fresh six-digit code for `email`, replacing
        any earlier entry, and returns it. */
    method GenerateCode(email: string, random: Option<int>, now: int) returns (r: Result<string, GenerateError>)
      requires random.Some? ==> 0 <= random.value < CodeSpace
      modifies this
      ensures (r, codes) == Generate(old(codes), email, random, now)
    {
      if email == "" {
        return Err(EmailRequired);
      }
      if random.None? {
        return Err(RandomFailed);
      }
      var code := Text.Pad6(random.value);
      codes := codes[email := MfaCode(code, now + CodeTtl, 0, MaxAttempts)];
      return Ok(code);
    }

    /** `VerifyCode`. */
    method VerifyCode(email: string, provided: string, now: int) returns (v: Verdict)
      modifies this
      ensures (v, codes) == Verify(old(codes), email, provided, now)
    {
      if email == "" || provided == "" {
        return Rejected(MissingInput);
      }
      if email !in codes {
        return Rejected(NoCodeFound);
      }
      var c := codes[email];
      if now > c.expiresAt {
        codes := codes - {email};
        return Rejected(Expired);
      }
      if c.attempts >= c.maxAttempts {
        codes := codes - {email};
        return Rejected(AttemptsExceeded);
      }
      c := c.(attempts := c.attempts + 1);
      codes := codes[email := c];
      if c.code == provided {
        assert codes - {email} == old(codes) - {email};
        codes := codes - {email};
        return Verified;
      }
      return Rejected(InvalidCode);
    }

    /** `CleanupExpiredCodes`: visits every entry once and deletes the expired
        ones. */
    method CleanupExpiredCodes(now: int)
      modifies this
      ensures codes == Sweep(old(codes), now)
    {
      var pending := codes.Keys;
      while pending != {}
        invariant pending <= codes.Keys <= old(codes).Keys
        invariant forall e :: e in codes ==> codes[e] == old(codes)[e]
        invariant forall e :: e in old(codes) && e !in pending ==> (e in codes <==> !IsExpired(old(codes)[e], now))
        invariant forall e :: e in old(codes) && e in pending ==> e in codes
        decreases pending
      {
        var e :| e in pending;
        if now > codes[e].expiresAt {
          codes := codes - {e};
        }
        pending := pending - {e};
      }
    }
  }
}

/** Upload retries and their backoff (agent/internal/uploader/worker.go). */
module Retry {

  /** Durations are in nanoseconds. */
  const BASE := 500_000_000
  const CAP := 30_000_000_000

  /** 500ms doubled `n` times, without any width. */
  function Doubled(n: nat): nat {
    if n == 0 then BASE else 2 * Doubled(n - 1)
  }

  /** Two's complement reading of `x` in 64 bits. */
  function Int64(x: nat): int {
    var word := x % 0x1_0000_0000_0000_0000;
    if word >= 0x8000_0000_0000_0000 then word - 0x1_0000_0000_0000_0000 else word
  }

  /** `base << attempt` on a 64-bit duration, capped. */
  function BackoffDuration(attempt: nat): int {
    var delay := Int64(Doubled(attempt));
    if delay > CAP then CAP else delay
  }

  /** What the source's comment promises: 500ms doubled each time, at most 30s. */
  function Promised(attempt: nat): int {
    if Doubled(attempt) > CAP then CAP else Doubled(attempt)
  }

  lemma {:induction false} DoubledMonotone(a: nat, b: nat)
    requires a <= b
    ensures BASE <= Doubled(a) <= Doubled(b)
  {
    if a < b {
      DoubledMonotone(a, b - 1);
    } else if a > 0 {
      DoubledMonotone(a - 1, b - 1);
    }
  }

  /** The 64-bit register after `n` shifts by one: the top bit is lost. */
  function Word(n: nat): (w: nat)
    ensures w < 0x1_0000_0000_0000_0000
  {
    if n == 0 then BASE
    else
      var d := 2 * Word(n - 1);
      if d >= 0x1_0000_0000_0000_0000 then d - 0x1_0000_0000_0000_0000 else d
  }

  lemma DoubleMod(x: nat)
    ensures 2 * x % 0x1_0000_0000_0000_0000 == 2 * (x % 0x1_0000_0000_0000_0000) % 0x1_0000_0000_0000_0000
  {
    var q, r := x / 0x1_0000_0000_0000_0000, x % 0x1_0000_0000_0000_0000;
    if 2 * r < 0x1_0000_0000_0000_0000 {
      assert 2 * x == 0x1_0000_0000_0000_0000 * (2 * q) + 2 * r;
    } else {
      assert 2 * x == 0x1_0000_0000_0000_0000 * (2 * q + 1) + (2 * r - 0x1_0000_0000_0000_0000);
    }
  }

  lemma {:induction false} WordIsShift(n: nat)
    ensures Word(n) == Doubled(n) % 0x1_0000_0000_0000_0000
  {
    if n > 0 {
      WordIsShift(n - 1);
      DoubleMod(Doubled(n - 1));
    }
  }

  /** Whether the register, read as a signed word, is at least the cap. */
  predicate LooksLong(n: nat) {
    CAP <= Word(n) < 0x8000_0000_0000_0000
  }

  lemma InRange()
    ensures Doubled(5) == 16_000_000_000 && Doubled(34) == 0x7735_9400_0000_0000
  {
    assert Doubled(5) == 16_000_000_000;
    assert Doubled(15) == 16_384_000_000_000;
    assert Doubled(25) == 16_777_216_000_000_000;
  }

  lemma Word34()
    ensures Word(34) == 0x7735_9400_0000_0000
  {
    InRange();
    WordIsShift(34);
  }

  /** The register for the attempts at which it overflows, up to the one that empties it. */
  lemma EarlyOverflows()
    ensures Word(45) == 0xaca0000000000000
    ensures !LooksLong(35) && !LooksLong(36) && !LooksLong(37) && LooksLong(38)
    ensures !LooksLong(39) && !LooksLong(40) && !LooksLong(41) && LooksLong(42) && LooksLong(43)
    ensures !LooksLong(44)
  {
    Word34();
    assert Word(36) == 0xdcd6500000000000;
    assert Word(38) == 0x7359400000000000;
    assert Word(40) == 0xcd65000000000000;
    assert Word(42) == 0x3594000000000000;
    assert Word(44) == 0xd650000000000000;
  }

  lemma LateOverflows()
    ensures Word(56) == 0
    ensures !LooksLong(45) && LooksLong(46) && !LooksLong(47) && LooksLong(48)
    ensures !LooksLong(49) && !LooksLong(50) && LooksLong(51) && LooksLong(52)
    ensures !LooksLong(53) && LooksLong(54) && !LooksLong(55)
  {
    EarlyOverflows();
    assert Word(47) == 0xb280000000000000;
    assert Word(49) == 0xca00000000000000;
    assert Word(51) == 0x2800000000000000;
    assert Word(53) == 0xa000000000000000;
    assert Word(55) == 0x8000000000000000;
  }

  lemma {:induction false} ShiftedOut(n: nat)
    requires n >= 56
    ensures Word(n) == 0
  {
    if n == 56 {
      LateOverflows();
    } else {
      ShiftedOut(n - 1);
    }
  }

  lemma BackoffFromWord(attempt: nat)
    ensures var w := Word(attempt);
            BackoffDuration(attempt) ==
              if w >= 0x8000_0000_0000_0000 then w - 0x1_0000_0000_0000_0000 else if w > CAP then CAP else w
  {
    WordIsShift(attempt);
  }

  lemma NoOverflow(attempt: nat)
    requires attempt <= 34
    ensures BackoffDuration(attempt) == Promised(attempt)
  {
    InRange();
    DoubledMonotone(attempt, 34);
  }

  lemma WhichLookLong(n: nat)
    requires 35 <= n < 56
    ensures LooksLong(n) <==> n == 38 || n == 42 || n == 43 || n == 46 || n == 48 || n == 51 || n == 52 || n == 54
  {
    EarlyOverflows();
    LateOverflows();
    if n <= 40 {
      assert n == 35 || n == 36 || n == 37 || n == 38 || n == 39 || n == 40;
    } else if n <= 46 {
      assert n == 41 || n == 42 || n == 43 || n == 44 || n == 45 || n == 46;
    } else {
      assert n == 47 || n == 48 || n == 49 || n == 50 || n == 51 || n == 52 || n == 53 || n == 54 || n == 55;
    }
  }

  lemma Overflowed(attempt: nat)
    requires attempt >= 35
    ensures BackoffDuration(attempt) == Promised(attempt) <==> LooksLong(attempt)
  {
    InRange();
    DoubledMonotone(34, attempt);
    BackoffFromWord(attempt);
  }

  /** The shift keeps the promise exactly for attempts 0 to 34 and for the eight later attempts
      whose overflow happens to leave a large positive word. */
  lemma BackoffKeepsPromise(attempt: nat)
    ensures BackoffDuration(attempt) == Promised(attempt) <==>
              || attempt <= 34 || attempt == 38 || attempt == 42 || attempt == 43 || attempt == 46
              || attempt == 48 || attempt == 51 || attempt == 52 || attempt == 54
  {
    if attempt <= 34 {
      NoOverflow(attempt);
    } else {
      Overflowed(attempt);
      if attempt < 56 {
        WhichLookLong(attempt);
      } else {
        ShiftedOut(attempt);
      }
    }
  }

  lemma BackoffMonotone(a: nat, b: nat)
    requires a <= b <= 34
    ensures BASE <= BackoffDuration(a) <= BackoffDuration(b) <= CAP
  {
    BackoffKeepsPromise(a);
    BackoffKeepsPromise(b);
    DoubledMonotone(a, b);
  }

  /** Total of the first `n` waits. */
  function Waiting(n: nat): int {
    if n == 0 then 0 else Waiting(n - 1) + BackoffDuration(n - 1)
  }

  /** 500ms (2^n - 1) while the delay doubles, then 30s for every further wait. */
  lemma {:induction false} WaitingClosedForm(n: nat)
    requires n <= 35
    ensures Waiting(n) == if n <= 6 then Doubled(n) - BASE else 31_500_000_000 + CAP * (n - 6)
  {
    if n > 0 {
      WaitingClosedForm(n - 1);
      BackoffKeepsPromise(n - 1);
      InRange();
      if n > 6 {
        DoubledMonotone(6, n - 1);
      } else {
        DoubledMonotone(n - 1, 5);
      }
    }
  }

  datatype UploadError = Nil | PutFailed(attempt: nat) | Cancelled

  /** The client and the context as seen by one upload: whether call `k` succeeds, and whether the
      context is done before attempt `k` or while waiting after it. */
  datatype World = World(put: nat -> bool, doneBefore: nat -> bool, doneDuring: nat -> bool)

  /** Attempt `k` failed and its wait was not interrupted. */
  predicate GoesOn(w: World, k: nat) {
    !w.doneBefore(k) && !w.put(k) && !w.doneDuring(k)
  }

  /** At attempt `k` the context is found done: before the call, or in the wait after a failure that
      is not the last. */
  predicate FoundDone(w: World, maxRetries: int, k: nat) {
    w.doneBefore(k) || (!w.put(k) && k < maxRetries - 1 && w.doneDuring(k))
  }

  ghost predicate CancelledAt(w: World, maxRetries: int, k: nat) {
    k < maxRetries && FoundDone(w, maxRetries, k) && forall j :: 0 <= j < k ==> GoesOn(w, j)
  }

  /** `calls` counts PutObject calls, `waits` counts completed backoff waits.  Success means that
      the last call succeeded, provided at least one retry is configured, as `New` enforces; a context
      that is found done ends the upload at once, and nothing follows a success. */
  method UploadWithRetry(w: World, maxRetries: int) returns (err: UploadError, calls: nat, waits: nat, waited: int)
    ensures calls <= (if maxRetries < 0 then 0 else maxRetries)
    ensures forall k :: 0 <= k < calls - 1 ==> !w.put(k)
    ensures maxRetries > 0 ==> (err == Nil <==> calls > 0 && w.put(calls - 1))
    ensures maxRetries <= 0 ==> err == Nil && calls == 0
    ensures forall k :: 0 <= k < calls ==> !w.doneBefore(k)
    ensures forall k :: 0 <= k < waits ==> GoesOn(w, k)
    ensures err == Cancelled <==> exists k :: CancelledAt(w, maxRetries, k)
    ensures err == Cancelled ==> CancelledAt(w, maxRetries, waits) && (calls == waits <==> w.doneBefore(waits))
    ensures err.PutFailed? ==> calls == maxRetries && err.attempt == calls - 1 && !w.put(calls - 1)
    ensures err != Cancelled && maxRetries > 0 ==> waits == calls - 1
    ensures waits <= calls && (calls > 0 ==> waits >= calls - 1) && waited == Waiting(waits)
    ensures maxRetries > 0 ==> waits < maxRetries
  {
    err, calls, waits, waited := Nil, 0, 0, 0;
    var attempt := 0;
    while attempt < maxRetries
      invariant 0 <= attempt <= if maxRetries < 0 then 0 else maxRetries
      invariant calls == attempt && forall k :: 0 <= k < calls ==>
                                              !w.put(k) && !w.doneBefore(k) && !FoundDone(w, maxRetries, k)
      invariant forall k :: 0 <= k < waits ==> GoesOn(w, k)
      invariant attempt == 0 ==> err == Nil
      invariant attempt > 0 ==> err == PutFailed(attempt - 1)
      invariant waits == (if 0 < attempt == maxRetries then attempt - 1 else attempt)
      invariant waited == Waiting(waits)
    {
      if w.doneBefore(attempt) {
        assert CancelledAt(w, maxRetries, attempt);
        err := Cancelled;
        return;
      }
      calls := calls + 1;
      if w.put(attempt) {
        assert !GoesOn(w, attempt);
        err := Nil;
        return;
      }
      err := PutFailed(attempt);
      if attempt < maxRetries - 1 {
        if w.doneDuring(attempt) {
          assert CancelledAt(w, maxRetries, attempt);
          err := Cancelled;
          return;
        }
        waited := waited + BackoffDuration(attempt);
        waits := waits + 1;
      }
      attempt := attempt + 1;
    }
  }
}

/** The retry backoff of webhook deliveries: a 64-bit shift with a cap. */
module WebhookBackoff {
  const SECOND: int := 1_000_000_000
  const BASE: int := 30 * SECOND
  const CAP: int := 1800 * SECOND

  const MAX_INT64: int := 0x7FFF_FFFF_FFFF_FFFF
  const TWO_TO_64: int := 0x1_0000_0000_0000_0000

  /** Go's x << 1 on an int64 x: the top bit is lost and the one below becomes the sign. */
  function ShiftOnce(x: int): (y: int)
    ensures -MAX_INT64 - 1 <= x <= MAX_INT64 ==> -MAX_INT64 - 1 <= y <= MAX_INT64 && (y - 2 * x) % TWO_TO_64 == 0
  {
    if 2 * x > MAX_INT64 then 2 * x - TWO_TO_64
    else if 2 * x < -MAX_INT64 - 1 then 2 * x + TWO_TO_64
    else 2 * x
  }

  /** Go's x << n, which acts like n shifts by one. */
  function ShiftLeft(x: int, n: nat): int {
    if n == 0 then x else ShiftOnce(ShiftLeft(x, n - 1))
  }

  function Pow2(n: nat): int {
    if n == 0 then 1 else 2 * Pow2(n - 1)
  }

  /** backoffFor, for attempt numbers from 1 on. */
  function BackoffFor(attempt: int): int
    requires attempt >= 1
  {
    var d := ShiftLeft(BASE, attempt - 1);
    if d > CAP then CAP else d
  }

  /** What the shift is meant to compute: 30 s, doubled after each attempt, at most 30 min. */
  function Doubling(attempt: int): int
    requires attempt >= 1
  {
    if BASE * Pow2(attempt - 1) > CAP then CAP else BASE * Pow2(attempt - 1)
  }

  /** As long as nothing overflows, shifting multiplies. */
  lemma {:induction false} ShiftMultiplies(n: nat)
    requires BASE * Pow2(n) <= MAX_INT64
    ensures ShiftLeft(BASE, n) == BASE * Pow2(n)
    decreases n
  {
    if n > 0 {
      Pow2Grows(0, n - 1);
      ShiftMultiplies(n - 1);
    }
  }

  lemma ShiftExact(n: nat)
    requires n <= 28
    ensures ShiftLeft(BASE, n) == BASE * Pow2(n)
  {
    Pow2Grows(n, 28);
    Pow2Values();
    ShiftMultiplies(n);
  }

  lemma Pow2Values()
    ensures Pow2(6) == 64 && Pow2(28) == 0x1000_0000
  {
    assert Pow2(5) == 32;
    assert Pow2(10) == 1024;
    assert Pow2(15) == 0x8000;
    assert Pow2(20) == 0x10_0000;
    assert Pow2(25) == 0x200_0000;
  }

  lemma {:induction false} Pow2Grows(m: nat, n: nat)
    requires m <= n
    ensures 1 <= Pow2(m) <= Pow2(n)
    decreases n
  {
    if m < n {
      Pow2Grows(m, n - 1);
    } else if n > 0 {
      Pow2Grows(m - 1, n - 1);
    }
  }

  /** From the seventh attempt on the cap applies. */
  lemma DoublingCapped(attempt: int)
    requires attempt >= 7
    ensures Doubling(attempt) == CAP
  {
    Pow2Values();
    Pow2Grows(6, attempt - 1);
  }

  lemma Shift28()
    ensures ShiftLeft(BASE, 28) == 8053063680000000000
  {
    ShiftExact(28);
    Pow2Values();
  }

  lemma Shifts29To36()
    ensures ShiftLeft(BASE, 29) == -2340616713709551616
    ensures ShiftLeft(BASE, 30) == -4681233427419103232
    ensures ShiftLeft(BASE, 31) == 9084277218871345152
    ensures ShiftLeft(BASE, 32) == -278189635966861312
    ensures ShiftLeft(BASE, 33) == -556379271933722624
    ensures ShiftLeft(BASE, 34) == -1112758543867445248
    ensures ShiftLeft(BASE, 35) == -2225517087734890496
    ensures ShiftLeft(BASE, 36) == -4451034175469780992
  {
    Shift28();
    assert ShiftLeft(BASE, 29) == ShiftOnce(ShiftLeft(BASE, 28));
    assert ShiftLeft(BASE, 30) == ShiftOnce(ShiftLeft(BASE, 29));
    assert ShiftLeft(BASE, 31) == ShiftOnce(ShiftLeft(BASE, 30));
    assert ShiftLeft(BASE, 32) == ShiftOnce(ShiftLeft(BASE, 31));
    assert ShiftLeft(BASE, 33) == ShiftOnce(ShiftLeft(BASE, 32));
    assert ShiftLeft(BASE, 34) == ShiftOnce(ShiftLeft(BASE, 33));
    assert ShiftLeft(BASE, 35) == ShiftOnce(ShiftLeft(BASE, 34));
    assert ShiftLeft(BASE, 36) == ShiftOnce(ShiftLeft(BASE, 35));
  }

  lemma Shifts37To44()
    ensures ShiftLeft(BASE, 37) == -8902068350939561984
    ensures ShiftLeft(BASE, 38) == 642607371830427648
    ensures ShiftLeft(BASE, 39) == 1285214743660855296
    ensures ShiftLeft(BASE, 40) == 2570429487321710592
    ensures ShiftLeft(BASE, 41) == 5140858974643421184
    ensures ShiftLeft(BASE, 42) == -8165026124422709248
    ensures ShiftLeft(BASE, 43) == 2116691824864133120
    ensures ShiftLeft(BASE, 44) == 4233383649728266240
  {
    Shifts29To36();
    assert ShiftLeft(BASE, 37) == ShiftOnce(ShiftLeft(BASE, 36));
    assert ShiftLeft(BASE, 38) == ShiftOnce(ShiftLeft(BASE, 37));
    assert ShiftLeft(BASE, 39) == ShiftOnce(ShiftLeft(BASE, 38));
    assert ShiftLeft(BASE, 40) == ShiftOnce(ShiftLeft(BASE, 39));
    assert ShiftLeft(BASE, 41) == ShiftOnce(ShiftLeft(BASE, 40));
    assert ShiftLeft(BASE, 42) == ShiftOnce(ShiftLeft(BASE, 41));
    assert ShiftLeft(BASE, 43) == ShiftOnce(ShiftLeft(BASE, 42));
    assert ShiftLeft(BASE, 44) == ShiftOnce(ShiftLeft(BASE, 43));
  }

  lemma Shifts45To49()
    ensures ShiftLeft(BASE, 45) == 8466767299456532480
    ensures ShiftLeft(BASE, 46) == -1513209474796486656
    ensures ShiftLeft(BASE, 47) == -3026418949592973312
    ensures ShiftLeft(BASE, 48) == -6052837899185946624
    ensures ShiftLeft(BASE, 49) == 6341068275337658368
  {
    Shifts37To44();
    assert ShiftLeft(BASE, 45) == ShiftOnce(ShiftLeft(BASE, 44));
    assert ShiftLeft(BASE, 46) == ShiftOnce(ShiftLeft(BASE, 45));
    assert ShiftLeft(BASE, 47) == ShiftOnce(ShiftLeft(BASE, 46));
    assert ShiftLeft(BASE, 48) == ShiftOnce(ShiftLeft(BASE, 47));
    assert ShiftLeft(BASE, 49) == ShiftOnce(ShiftLeft(BASE, 48));
  }

  lemma Shifts50To54()
    ensures ShiftLeft(BASE, 50) == -5764607523034234880
    ensures ShiftLeft(BASE, 51) == 6917529027641081856
    ensures ShiftLeft(BASE, 52) == -4611686018427387904
    ensures ShiftLeft(BASE, 53) == -9223372036854775808
    ensures ShiftLeft(BASE, 54) == 0
  {
    Shifts45To49();
    assert ShiftLeft(BASE, 50) == ShiftOnce(ShiftLeft(BASE, 49));
    assert ShiftLeft(BASE, 51) == ShiftOnce(ShiftLeft(BASE, 50));
    assert ShiftLeft(BASE, 52) == ShiftOnce(ShiftLeft(BASE, 51));
    assert ShiftLeft(BASE, 53) == ShiftOnce(ShiftLeft(BASE, 52));
    assert ShiftLeft(BASE, 54) == ShiftOnce(ShiftLeft(BASE, 53));
  }

  lemma {:induction false} ShiftedOut(n: nat)
    requires n >= 54
    ensures ShiftLeft(BASE, n) == 0
    decreases n
  {
    if n == 54 {
      Shifts50To54();
    } else {
      ShiftedOut(n - 1);
    }
  }

  /** The attempts for which the 64-bit shift yields the intended backoff. */
  predicate ShiftFits(attempt: int) {
    1 <= attempt <= 29 || attempt in {32, 39, 40, 41, 42, 44, 45, 46, 50, 52}
  }

  /** The code computes the intended backoff exactly for these attempts; after the 29th it may even be negative. */
  lemma BackoffIsDoubling(attempt: int)
    requires attempt >= 1
    ensures BackoffFor(attempt) == Doubling(attempt) <==> ShiftFits(attempt)
  {
    if attempt <= 29 {
      ShiftExact(attempt - 1);
    } else {
      DoublingCapped(attempt);
      if attempt <= 37 {
        Shifts29To36();
      } else if attempt <= 45 {
        Shifts37To44();
      } else if attempt <= 50 {
        Shifts45To49();
      } else if attempt <= 54 {
        Shifts50To54();
      } else {
        ShiftedOut(attempt - 1);
      }
    }
  }

  lemma DoublingGrows(m: int, n: int)
    requires 1 <= m <= n
    ensures BASE <= Doubling(m) <= Doubling(n) <= CAP
  {
    Pow2Grows(m - 1, n - 1);
  }

  /** Up to the 29th attempt the backoff is positive, never shrinks, and stays within the cap. */
  lemma BackoffGrows(m: int, n: int)
    requires 1 <= m <= n <= 29
    ensures BASE <= BackoffFor(m) <= BackoffFor(n) <= CAP
  {
    BackoffIsDoubling(m);
    BackoffIsDoubling(n);
    DoublingGrows(m, n);
  }

  /** backoff(1) + ... + backoff(n). */
  function TotalBackoff(n: nat): int {
    if n == 0 then 0 else TotalBackoff(n - 1) + BackoffFor(n)
  }

  function TotalDoubling(n: nat): int {
    if n == 0 then 0 else TotalDoubling(n - 1) + Doubling(n)
  }

  lemma {:induction false} TotalsAgree(n: nat)
    requires n <= 29
    ensures TotalBackoff(n) == TotalDoubling(n)
    decreases n
  {
    if n > 0 {
      BackoffIsDoubling(n);
      TotalsAgree(n - 1);
    }
  }
}

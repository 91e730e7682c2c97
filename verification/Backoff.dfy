/** Reconnecting to the master with exponential backoff.  Durations are nanoseconds; the jitter's random
    factor is a real in [-1, 1). */
module Backoff {
  const BASE := 1_000_000_000
  const CAP := 30 * BASE
  const JITTER := 0.15
  const MAX_INT64 := 0x7FFF_FFFF_FFFF_FFFF

  function Pow2(n: nat): nat {
    if n == 0 then 1 else 2 * Pow2(n - 1)
  }

  /** A 64-bit two's complement integer. */
  function Wrap64(x: int): int {
    var m := x % (2 * (MAX_INT64 + 1));
    if m > MAX_INT64 then m - 2 * (MAX_INT64 + 1) else m
  }

  function Clamped(attempt: nat): nat {
    if attempt > 30 then 30 else attempt
  }

  /** `backoffBase << attempt`, after the clamp, in 64 bits. */
  function Shifted(attempt: nat): int {
    Wrap64(BASE * Pow2(Clamped(attempt)))
  }

  function Base(attempt: nat): int {
    var base := Shifted(attempt);
    if base > CAP || base <= 0 then CAP else base
  }

  /** A float converted to a duration: truncation toward zero. */
  function Truncate(x: real): int {
    if x >= 0.0 then x.Floor else -(-x).Floor
  }

  /** The random offset, for a factor drawn from [-1, 1). */
  function Offset(base: int, factor: real): real {
    factor * (base as real * JITTER)
  }

  function Jittered(base: int, offset: real): int {
    var d := base + Truncate(offset);
    if d < 0 then 0 else d
  }

  function Delay(attempt: nat, factor: real): int {
    var base := Base(attempt);
    Jittered(base, Offset(base, factor))
  }

  // ------------------------------------------------------------------ the delay

  lemma {:induction false} Pow2Grows(a: nat, b: nat)
    requires a <= b
    ensures 1 <= Pow2(a) <= Pow2(b)
  {
    if a < b {
      Pow2Grows(a, b - 1);
    } else if a > 0 {
      Pow2Grows(a - 1, a - 1);
    }
  }

  lemma Pow2Thirty()
    ensures Pow2(4) == 16 && Pow2(5) == 32 && Pow2(30) == 0x4000_0000
  {
    assert Pow2(5) == 32;
    assert Pow2(10) == 1024;
    assert Pow2(15) == 0x8000;
    assert Pow2(20) == 0x10_0000;
    assert Pow2(25) == 0x200_0000;
  }

  /** The shift never overflows. */
  lemma ShiftFits(attempt: nat)
    ensures 0 < BASE * Pow2(Clamped(attempt)) <= MAX_INT64
    ensures Shifted(attempt) == BASE * Pow2(Clamped(attempt))
  {
    Pow2Thirty();
    Pow2Grows(Clamped(attempt), 30);
  }

  /** The base is min(2^attempt, 30) seconds. */
  lemma BaseExact(attempt: nat)
    ensures Base(attempt) == if Pow2(attempt) < 30 then BASE * Pow2(attempt) else CAP
    ensures Pow2(attempt) < 30 <==> attempt <= 4
  {
    ShiftFits(attempt);
    Pow2Thirty();
    if attempt <= 4 {
      Pow2Grows(attempt, 4);
    } else {
      Pow2Grows(5, attempt);
      Pow2Grows(5, Clamped(attempt));
    }
  }

  lemma BaseGrows(a: nat, b: nat)
    requires a <= b
    ensures BASE <= Base(a) <= Base(b) <= CAP
  {
    BaseExact(a);
    BaseExact(b);
    Pow2Grows(a, b);
  }

  /** The delay is within 15% of the base, and in particular never clipped at zero. */
  lemma DelayWithin(attempt: nat, factor: real)
    requires -1.0 <= factor < 1.0
    ensures 0.85 * Base(attempt) as real <= Delay(attempt, factor) as real <= 1.15 * Base(attempt) as real
  {
    BaseGrows(attempt, attempt);
    OffsetWithin(Base(attempt), factor);
    JitteredWithin(Base(attempt), Offset(Base(attempt), factor));
  }

  lemma OffsetWithin(base: int, factor: real)
    requires base > 0 && -1.0 <= factor < 1.0
    ensures -(0.15 * base as real) <= Offset(base, factor) <= 0.15 * base as real
  {
    Scaled(factor, base as real * JITTER);
  }

  lemma Scaled(factor: real, range: real)
    requires -1.0 <= factor <= 1.0 && range >= 0.0
    ensures -range <= factor * range <= range
  {
  }

  lemma JitteredWithin(base: int, offset: real)
    requires base > 0 && -(0.15 * base as real) <= offset <= 0.15 * base as real
    ensures 0.85 * base as real <= Jittered(base, offset) as real <= 1.15 * base as real
  {
    var delta := Truncate(offset);
    assert if offset >= 0.0 then 0.0 <= delta as real <= offset else offset <= delta as real <= 0.0;
    assert (base + delta) as real == base as real + delta as real;
  }

  /** To the nanosecond, the base shifted by the factor times 15% of it. */
  predicate Near(delay: int, base: int, factor: real) {
    -1.0 < delay as real - (base as real + factor * (base as real * 0.15)) < 1.0
  }

  lemma DelayExactly(attempt: nat, factor: real)
    requires -1.0 <= factor < 1.0
    ensures Near(Delay(attempt, factor), Base(attempt), factor)
  {
    BaseGrows(attempt, attempt);
    NearBase(Base(attempt), factor);
  }

  lemma NearBase(base: int, factor: real)
    requires base > 0 && -1.0 <= factor < 1.0
    ensures Near(Jittered(base, Offset(base, factor)), base, factor)
  {
    OffsetWithin(base, factor);
    JitteredNear(base, Offset(base, factor));
  }

  lemma JitteredNear(base: int, offset: real)
    requires base > 0 && -(0.15 * base as real) <= offset <= 0.15 * base as real
    ensures -1.0 < Jittered(base, offset) as real - (base as real + offset) < 1.0
  {
    var delta := Truncate(offset);
    assert if offset >= 0.0 then 0.0 <= delta as real <= offset else offset <= delta as real <= 0.0;
    assert -1.0 < delta as real - offset < 1.0;
    assert (base + delta) as real == base as real + delta as real;
  }

  // ------------------------------------------------------------------- the loop

  /** How one session ended, and the random factor drawn for the wait after it. */
  datatype Round = Round(registered: bool, factor: real)

  /** Failures since the last session that registered. */
  function Failures(rounds: seq<Round>): nat {
    if rounds == [] || rounds[|rounds| - 1].registered then 0 else 1 + Failures(rounds[..|rounds| - 1])
  }

  function Sum(xs: seq<int>): int {
    if xs == [] then 0 else Sum(xs[..|xs| - 1]) + xs[|xs| - 1]
  }

  /** The waits that the client makes, as a function of its rounds. */
  function Waits(rounds: seq<Round>): (waits: seq<int>)
    ensures |waits| == |rounds|
  {
    if rounds == [] then []
    else Waits(rounds[..|rounds| - 1]) + [Delay(Failures(rounds), rounds[|rounds| - 1].factor)]
  }

  /** `runSatelliteClient` over its rounds, until it is cancelled: the waits between sessions. */
  method RunSatelliteClient(rounds: seq<Round>) returns (waits: seq<int>)
    ensures waits == Waits(rounds)
  {
    waits := [];
    var attempt := 0;
    for k := 0 to |rounds|
      invariant waits == Waits(rounds[..k]) && attempt == Failures(rounds[..k])
    {
      assert rounds[..k + 1][..k] == rounds[..k];
      if rounds[k].registered {
        attempt := 0;
      } else {
        attempt := attempt + 1;
      }
      waits := waits + [Delay(attempt, rounds[k].factor)];
    }
    assert rounds[..|rounds|] == rounds;
  }

  /** After k consecutive failures the client waits on Base(k), and after a session on Base(0). */
  lemma {:induction false} WaitAt(rounds: seq<Round>, i: nat)
    requires i < |rounds|
    ensures Waits(rounds)[i] == Delay(Failures(rounds[..i + 1]), rounds[i].factor)
  {
    if i < |rounds| - 1 {
      WaitAt(rounds[..|rounds| - 1], i);
      assert rounds[..|rounds| - 1][..i + 1] == rounds[..i + 1];
    } else {
      assert rounds[..i + 1] == rounds;
    }
  }

  /** Base(1) + ... + Base(n). */
  function SumOfBases(n: nat): int {
    if n == 0 then 0 else SumOfBases(n - 1) + Base(n)
  }

  /** The attempt counter: the rounds since the last session that registered, or since the start. */
  lemma {:induction false} FailuresExactly(rounds: seq<Round>, start: nat)
    requires start <= |rounds| && (start == 0 || rounds[start - 1].registered)
    requires forall i :: start <= i < |rounds| ==> !rounds[i].registered
    ensures Failures(rounds) == |rounds| - start
  {
    if start < |rounds| {
      FailuresExactly(rounds[..|rounds| - 1], start);
    }
  }

  /** After a session that registered, the next wait is on Base(0). */
  lemma WaitAfterSession(rounds: seq<Round>, i: nat)
    requires i < |rounds| && rounds[i].registered
    ensures Waits(rounds)[i] == Delay(0, rounds[i].factor)
  {
    WaitAt(rounds, i);
    FailuresExactly(rounds[..i + 1], i + 1);
  }

  /** n failures in a row wait in total within 15% of Base(1) + ... + Base(n). */
  lemma {:induction false} TotalWait(rounds: seq<Round>)
    requires forall r :: r in rounds ==> !r.registered && -1.0 <= r.factor < 1.0
    ensures var total, bases := Sum(Waits(rounds)) as real, SumOfBases(|rounds|) as real;
            0.85 * bases <= total <= 1.15 * bases
  {
    if rounds != [] {
      var front, last := rounds[..|rounds| - 1], rounds[|rounds| - 1];
      assert forall r :: r in front ==> r in rounds;
      assert last in rounds;
      TotalWait(front);
      FailuresExactly(rounds, 0);
      DelayWithin(|rounds|, last.factor);
      assert Waits(rounds)[..|rounds| - 1] == Waits(front);
    }
  }

  /** That sum is 2+4+8+16 and then 30 seconds for each further failure. */
  lemma {:induction false} SumOfBasesExact(n: nat)
    requires n >= 4
    ensures SumOfBases(n) == (30 * (n - 4) + 30) * BASE
  {
    BaseExact(n);
    Pow2Thirty();
    if n == 4 {
      BaseExact(1);
      BaseExact(2);
      BaseExact(3);
      assert Pow2(3) == 8;
      assert SumOfBases(3) == 14 * BASE;
    } else {
      SumOfBasesExact(n - 1);
      Pow2Grows(5, n);
    }
  }
}

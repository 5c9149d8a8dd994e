/** The RANDU linear congruential generator: a single seed, re-seeded with an
    odd integer or advanced by seed := 65539 * seed mod 2^31, each step yielding
    seed / 2^31. */
module AwesomeRng {

  /** The RANDU multiplier. */
  const Multiplier: int := 65539

  /** The modulus 2^31. */
  const Modulus: int := 0x8000_0000

  /** The seed the generator holds before anyone seeds it. */
  const DefaultSeed: int := 1

  /** The one error the generator reports: an even seed was offered. */
  datatype SeedError = InvalidSeed

  datatype Result<T> = Ok(value: T) | Err(error: SeedError)

  /** Oddness as the source tests it: the floored remainder by 2 is 1.
      Dafny's `%` with a positive divisor agrees with that for negative
      seeds too (-3 is odd, -4 is not). */
  predicate IsOdd(s: int) {
    s % 2 == 1
  }

  /** The source's remainder test is oddness in the usual sense: the seeds
      it accepts are exactly the integers 2k + 1, negative ones included. */
  lemma IsOddIffTwoKPlusOne(s: int)
    ensures IsOdd(s) <==> exists k :: s == 2 * k + 1
  {
    if IsOdd(s) {
      assert s == 2 * (s / 2) + 1;
    }
  }

  /** Seeds the validation refuses and seeds it accepts. */
  lemma SeedExamples()
    ensures !IsOdd(2) && !IsOdd(0) && !IsOdd(-4)
    ensures IsOdd(1) && IsOdd(7) && IsOdd(65539) && IsOdd(-3)
  {
  }

  // ---------------------------------------------------------------------------
  // Specification functions
  // ---------------------------------------------------------------------------

  /** Seed validation: an odd seed is installed exactly as given (no clamping,
      no reduction), an even one is refused. */
  function TryInit(s: int): (r: Result<int>)
    ensures r.Ok? <==> IsOdd(s)
    ensures r.Ok? ==> r.value == s
    ensures r.Err? ==> r.error == InvalidSeed
  {
    if s % 2 == 1 then Ok(s) else Err(InvalidSeed)
  }

  /** One RANDU step on an unbounded integer seed. The result is the unique
      representative in [0, 2^31) of the exact product 65539 * s, whatever
      the sign or size of s. */
  function Step(s: int): (r: int)
    ensures 0 <= r < Modulus
    ensures (Multiplier * s - r) % Modulus == 0
  {
    Multiplier * s % Modulus
  }

  /** The value handed to the caller for a seed: seed / 2^31, as an exact
      real number. */
  function Output(s: int): (r: real)
    ensures r * (Modulus as real) == s as real
    ensures r == 0.0 <==> s == 0
    ensures 0 <= s < Modulus ==> 0.0 <= r < 1.0
    ensures 0 < s < Modulus ==> 0.0 < r < 1.0
  {
    s as real / Modulus as real
  }

  /** The seed after n steps from s. */
  function Iterate(s: int, n: nat): int
    decreases n
  {
    if n == 0 then s else Iterate(Step(s), n - 1)
  }

  /** The n seeds that n successive steps from s pass through, in order. */
  function States(s: int, n: nat): (r: seq<int>)
    ensures |r| == n
    decreases n
  {
    if n == 0 then [] else [Step(s)] + States(Step(s), n - 1)
  }

  /** The n values that n successive draws from seed s return, in order. */
  function Outputs(s: int, n: nat): (r: seq<real>)
    ensures |r| == n
    decreases n
  {
    if n == 0 then [] else [Output(Step(s))] + Outputs(Step(s), n - 1)
  }

  /** A call a client makes on the generator. */
  datatype Call = Seed(seed: int) | Draw

  /** The seed after one call: a refused seed leaves it alone. */
  function Apply(state: int, c: Call): int {
    match c
    case Seed(s) => if TryInit(s).Ok? then TryInit(s).value else state
    case Draw => Step(state)
  }

  /** The seed after a sequence of calls. */
  function Run(state: int, calls: seq<Call>): int
    decreases |calls|
  {
    if calls == [] then state else Run(Apply(state, calls[0]), calls[1..])
  }

  // ---------------------------------------------------------------------------
  // Properties of the recurrence
  // ---------------------------------------------------------------------------

  /** Step does not depend on how the seed was written: a seed outside
      [0, 2^31), large or negative, gives the same next seed as its residue. */
  lemma StepOfResidue(s: int)
    ensures Step(s) == Step(s % Modulus)
  {
    var q := s / Modulus;
    assert s == q * Modulus + s % Modulus;
    assert Multiplier * s == (Multiplier * q) * Modulus + Multiplier * (s % Modulus);
    ModOfMultipleSum(Multiplier * q, Multiplier * (s % Modulus));
  }

  /** Adding a multiple of the modulus does not change a residue. */
  lemma ModOfMultipleSum(k: int, x: int)
    ensures (k * Modulus + x) % Modulus == x % Modulus
  {
  }

  /** The step's contract pins its result down: 65539 * s has only one
      representative in [0, 2^31). */
  lemma StepUnique(s: int, r: int)
    requires 0 <= r < Modulus
    requires (Multiplier * s - r) % Modulus == 0
    ensures r == Step(s)
  {
    var d := Multiplier * s - r;
    var q := d / Modulus;
    assert d == q * Modulus;
    ModOfMultipleSum(q, r);
    assert Multiplier * s == q * Modulus + r;
  }

  /** An odd seed steps to an odd seed: the product of two odd numbers is
      odd, and subtracting a multiple of the even modulus keeps parity. */
  lemma StepKeepsOdd(s: int)
    requires IsOdd(s)
    ensures IsOdd(Step(s))
    ensures Step(s) != 0
  {
    var p := Multiplier * s;
    var k := s / 2;
    assert s == 2 * k + 1;
    assert p == 2 * (Multiplier * k + 32769) + 1;
    var q := p / Modulus;
    assert p == q * Modulus + Step(s);
    assert Step(s) == 2 * (Multiplier * k + 32769 - q * 0x4000_0000) + 1;
  }

  /** Zero is absorbing: a zero seed steps to zero. */
  lemma StepOfZero()
    ensures Step(0) == 0
  {
  }

  /** One more step extends a run at its end: Iterate, States and Outputs
      agree on the seed the run reaches. */
  lemma {:induction false} StatesSnoc(s: int, n: nat)
    ensures Iterate(s, n + 1) == Step(Iterate(s, n))
    ensures States(s, n + 1) == States(s, n) + [Step(Iterate(s, n))]
    ensures Outputs(s, n + 1) == Outputs(s, n) + [Output(Step(Iterate(s, n)))]
    decreases n
  {
    if n > 0 {
      StatesSnoc(Step(s), n - 1);
    }
  }

  /** Each value drawn is the corresponding seed divided by 2^31. */
  lemma {:induction false} OutputsAreScaledStates(s: int, n: nat, i: nat)
    requires i < n
    ensures Outputs(s, n)[i] == Output(States(s, n)[i])
    decreases n
  {
    if i > 0 {
      OutputsAreScaledStates(Step(s), n - 1, i - 1);
    }
  }

  /** Every seed a run of steps passes through lies in [0, 2^31), wherever
      the starting seed lay. */
  lemma {:induction false} StatesInRange(s: int, n: nat, i: nat)
    requires i < n
    ensures 0 <= States(s, n)[i] < Modulus
    decreases n
  {
    if i > 0 {
      StatesInRange(Step(s), n - 1, i - 1);
    }
  }

  /** From an odd seed, every seed a run of steps passes through is odd
      (hence nonzero), and so is the seed it ends on. */
  lemma {:induction false} IterateKeepsOdd(s: int, n: nat)
    requires IsOdd(s)
    ensures IsOdd(Iterate(s, n))
    ensures forall i :: 0 <= i < n ==> IsOdd(States(s, n)[i]) && States(s, n)[i] != 0
    decreases n
  {
    if n > 0 {
      StepKeepsOdd(s);
      IterateKeepsOdd(Step(s), n - 1);
      assert States(s, n) == [Step(s)] + States(Step(s), n - 1);
    }
  }

  /** From an odd seed every drawn value lies strictly between 0 and 1; from
      any seed at all it lies in [0, 1). */
  lemma {:induction false} OutputsInUnitInterval(s: int, n: nat)
    ensures forall i :: 0 <= i < n ==> 0.0 <= Outputs(s, n)[i] < 1.0
    ensures IsOdd(s) ==> forall i :: 0 <= i < n ==> 0.0 < Outputs(s, n)[i] < 1.0
    decreases n
  {
    if n > 0 {
      if IsOdd(s) {
        StepKeepsOdd(s);
      }
      OutputsInUnitInterval(Step(s), n - 1);
      assert Outputs(s, n) == [Output(Step(s))] + Outputs(Step(s), n - 1);
    }
  }

  /** Once the seed is zero it stays zero and every draw returns 0. */
  lemma {:induction false} ZeroIsAbsorbing(n: nat)
    ensures Iterate(0, n) == 0
    ensures forall i :: 0 <= i < n ==> States(0, n)[i] == 0 && Outputs(0, n)[i] == 0.0
    decreases n
  {
    if n > 0 {
      StepOfZero();
      ZeroIsAbsorbing(n - 1);
      assert States(0, n) == [0] + States(0, n - 1);
      assert Outputs(0, n) == [0.0] + Outputs(0, n - 1);
    }
  }

  /** Seeding with 1 yields the seeds 65539, 393225, 1769499. */
  lemma GoldenStatesFromOne()
    ensures States(1, 3) == [65539, 393225, 1769499]
    ensures Outputs(1, 3) == [65539.0 / 2147483648.0, 393225.0 / 2147483648.0, 1769499.0 / 2147483648.0]
  {
  }

  /** The domain test: 1000 draws after seeding with 1 all lie strictly
      between 0 and 1. */
  lemma DomainOfThousandDraws()
    ensures forall i :: 0 <= i < 1000 ==> 0.0 < Outputs(1, 1000)[i] < 1.0
  {
    OutputsInUnitInterval(1, 1000);
  }

  /** Starting from the default seed, no sequence of calls ever leaves the
      generator with an even, and in particular a zero, seed. */
  lemma {:induction false} RunKeepsOdd(state: int, calls: seq<Call>)
    requires IsOdd(state)
    ensures IsOdd(Run(state, calls))
    ensures Run(state, calls) != 0
    decreases |calls|
  {
    if calls != [] {
      if calls[0].Draw? {
        StepKeepsOdd(state);
      }
      RunKeepsOdd(Apply(state, calls[0]), calls[1..]);
    }
  }

  /** Every seed reachable from module start is odd and nonzero. */
  lemma ReachableSeedIsOdd(calls: seq<Call>)
    ensures IsOdd(Run(DefaultSeed, calls))
    ensures Run(DefaultSeed, calls) != 0
  {
    RunKeepsOdd(DefaultSeed, calls);
  }

  /** A run of draws alone agrees with Iterate. */
  lemma {:induction false} RunOfDraws(state: int, n: nat)
    ensures Run(state, seq(n, _ => Draw)) == Iterate(state, n)
    decreases n
  {
    if n > 0 {
      var calls := seq(n, _ => Draw);
      assert calls[1..] == seq(n - 1, _ => Draw);
      RunOfDraws(Step(state), n - 1);
    }
  }

  // ---------------------------------------------------------------------------
  // The generator and its mutable seed
  // ---------------------------------------------------------------------------

  /** The generator owns the seed that the source keeps in a module global. */
  class Generator {
    var seed: int

    /** The seed is odd; the default seed, every accepted seed and every
        step keep it so. */
    ghost predicate Valid()
      reads this
    {
      IsOdd(seed)
    }

    /** A fresh generator holds the default seed 1. */
    constructor ()
      ensures seed == DefaultSeed
      ensures Valid()
    {
      seed := DefaultSeed;
    }

    /** Re-seed: an odd seed replaces the current one exactly; an even one is
        refused with InvalidSeed and the seed is left unchanged. */
    method Init(s: int) returns (r: Result<()>)
      modifies this
      ensures r.Ok? <==> IsOdd(s)
      ensures r.Err? ==> r.error == InvalidSeed
      ensures seed == (if IsOdd(s) then s else old(seed))
      ensures seed == Apply(old(seed), Seed(s))
      ensures old(Valid()) ==> Valid()
      ensures IsOdd(s) ==> Valid()
    {
      if s % 2 == 1 {
        seed := s;
        r := Ok(());
      } else {
        r := Err(InvalidSeed);
      }
    }

    /** Re-seed with the default argument: the default was bound to 1 when
        the seeding operation was defined, so this always installs 1, whatever
        the current seed is. */
    method InitDefault() returns (r: Result<()>)
      modifies this
      ensures r.Ok?
      ensures seed == DefaultSeed
      ensures seed == Apply(old(seed), Seed(DefaultSeed))
      ensures Valid()
    {
      r := Init(DefaultSeed);
    }

    /** Advance the seed one RANDU step and return the new seed over 2^31. */
    method Next() returns (x: real)
      modifies this
      ensures seed == Step(old(seed))
      ensures seed == Apply(old(seed), Draw)
      ensures 0 <= seed < Modulus
      ensures x == Output(seed)
      ensures 0.0 <= x < 1.0
      ensures old(seed) == 0 ==> seed == 0 && x == 0.0
      ensures old(Valid()) ==> Valid() && 0.0 < x < 1.0
    {
      seed := Multiplier * seed % Modulus;
      x := seed as real / Modulus as real;
      if old(seed) % 2 == 1 {
        StepKeepsOdd(old(seed));
      }
    }

    /** Draw n values in a row: n calls of Next, their results in order. */
    method DrawMany(n: nat) returns (xs: seq<real>)
      modifies this
      ensures xs == Outputs(old(seed), n)
      ensures seed == Iterate(old(seed), n)
      ensures forall i :: 0 <= i < n ==> 0.0 <= xs[i] < 1.0
      ensures old(Valid()) ==> Valid() && forall i :: 0 <= i < n ==> 0.0 < xs[i] < 1.0
    {
      ghost var s0 := seed;
      xs := [];
      var i := 0;
      while i < n
        invariant 0 <= i <= n
        invariant xs == Outputs(s0, i)
        invariant seed == Iterate(s0, i)
      {
        StatesSnoc(s0, i);
        var x := Next();
        xs := xs + [x];
        i := i + 1;
      }
      OutputsInUnitInterval(s0, n);
      if IsOdd(s0) {
        IterateKeepsOdd(s0, n);
      }
    }
  }
}

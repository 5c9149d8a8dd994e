# awesome-rng: the RANDU generator in Dafny

This project models the generator behind `python/awesome_rng.py`, an
implementation of RANDU, the historical linear congruential generator. Its
state is a single integer seed. The seed starts at 1 and changes in two ways:

- `init_awesome_rng(seed)` installs a caller's seed. It accepts the seed only
  when `seed % 2 == 1` and otherwise raises `ValueError`.
- `awesome_rng()` replaces the seed by `65539 * seed % 2**31` and returns
  `seed / 2**31`.

Everything lives in one module, `AwesomeRng` (`awesome_rng.dfy`):

- The pure recurrence: `Step`, `Output` and `TryInit`, together with
  `Iterate`, `States` and `Outputs` for runs of draws, and `Apply` and `Run`
  for arbitrary sequences of seed and draw calls.
- The lemmas about that recurrence.
- A class `Generator` whose field `seed` stands for the module global
  `SEED`. Its methods `Init`, `InitDefault` (the call with no argument),
  `Next` and `DrawMany` overwrite that field.
  `Valid()` (the seed is odd) is the class invariant. The constructor
  establishes it, and every method preserves it.

Python integers are unbounded, and the model uses Dafny's unbounded `int`,
so the product `65539 * seed` is never truncated before the modulus is
taken. Python's `%` floors, so its result with a positive divisor is never
negative. That matches Dafny's Euclidean `%`, so negative odd seeds (which
Python accepts, since `-3 % 2 == 1`) behave the same way in the model.

The model reads `SEED / 2**31` as Python 3's true division; under Python 2's
integer `/` every draw would be 0.

The output is modelled as the exact real `seed / 2^31`. For every seed that
`awesome_rng` can return (`0 <= seed < 2^31`), the IEEE double quotient is
exact as well. The numerator fits in 53 bits and the divisor is a power of
two.

The golden seeds after seeding with 1 are 65539, 393225 and 1769499
(`GoldenStatesFromOne`). They follow from the code: 65539² = 2^32 + 393225,
which is 393225 modulo 2^31.

## Model

| member | source | states |
|---|---|---|
| AwesomeRng.TryInit | python/awesome_rng.py:41-50 | a seed is accepted iff it is odd (floored remainder 1); an accepted seed is installed exactly as given; a refused one yields InvalidSeed |
| AwesomeRng.IsOddIffTwoKPlusOne | python/awesome_rng.py:47 | the remainder test accepts exactly the integers of the form 2k + 1, negative ones included |
| AwesomeRng.SeedExamples | python/awesome_rng.py:47-50 | 2, 0 and -4 are refused; 1, 7, 65539 and -3 are accepted |
| AwesomeRng.Step | python/awesome_rng.py:58 | the next seed lies in [0, 2^31) and is congruent to 65539 times the old seed modulo 2^31, for any old seed, negative or beyond 2^31 included |
| AwesomeRng.Output | python/awesome_rng.py:60 | the returned value times 2^31 is the seed; it is 0 exactly when the seed is 0; it lies in [0, 1) for a seed in range and in (0, 1) for a nonzero one |
| AwesomeRng.StepUnique | python/awesome_rng.py:58 | any r in [0, 2^31) congruent to 65539·s modulo 2^31 is Step(s): the contract of Step fixes the new seed exactly |
| AwesomeRng.StepOfResidue | python/awesome_rng.py:58 | a seed out of range steps to the same seed as its residue modulo 2^31, so large or negative seeds are reduced by the first step |
| AwesomeRng.StepKeepsOdd | python/awesome_rng.py:58 | an odd seed steps to an odd, hence nonzero, seed |
| AwesomeRng.StepOfZero | python/awesome_rng.py:58 | a zero seed steps to zero |
| AwesomeRng.StatesSnoc | python/awesome_rng.py:58-60 | one more draw extends a run at its end: the seed reached is stepped once more, and the value returned is that new seed over 2^31 |
| AwesomeRng.OutputsAreScaledStates | python/awesome_rng.py:58-60 | the i-th value of a run of draws is the i-th seed of that run divided by 2^31 |
| AwesomeRng.StatesInRange | python/awesome_rng.py:58 | every seed a run of draws passes through lies in [0, 2^31), wherever the starting seed lay |
| AwesomeRng.IterateKeepsOdd | python/awesome_rng.py:58 | from an odd seed, every seed a run passes through is odd and nonzero, and so is the seed it ends on |
| AwesomeRng.OutputsInUnitInterval | python/awesome_rng.py:58-60 | every drawn value lies in [0, 1); from an odd seed every drawn value lies strictly in (0, 1) |
| AwesomeRng.ZeroIsAbsorbing | python/awesome_rng.py:58-60 | from a zero seed the seed stays zero for any number of draws, and every draw returns 0 |
| AwesomeRng.GoldenStatesFromOne | python/awesome_rng.py:58 | seeding with 1 and drawing three times yields the seeds 65539, 393225 and 1769499 and those seeds over 2^31 as values |
| AwesomeRng.DomainOfThousandDraws | python/test_awesome_rng.py:14-19 | all 1000 values drawn after seeding with 1 are strictly greater than 0 and strictly less than 1 |
| AwesomeRng.RunKeepsOdd | python/awesome_rng.py:41-60 | from an odd seed, any sequence of seed and draw calls leaves an odd, nonzero seed |
| AwesomeRng.ReachableSeedIsOdd | python/awesome_rng.py:38-60 | from the initial seed 1, every seed reachable by any sequence of calls is odd and never 0 |
| AwesomeRng.RunOfDraws | python/awesome_rng.py:52-60 | a sequence of draw calls alone leaves the same seed as that many steps of the recurrence |
| AwesomeRng.Generator.constructor | python/awesome_rng.py:38 | a new generator holds the seed 1, which is odd |
| AwesomeRng.Generator.Init | python/awesome_rng.py:41-50 | an odd seed replaces the seed exactly and Init succeeds; an even seed (0 and negative evens included) fails with InvalidSeed and leaves the seed unchanged; the new seed is what the Seed call of the call-sequence model gives; oddness of the seed is kept |
| AwesomeRng.Generator.InitDefault | python/awesome_rng.py:41-50 | seeding without an argument always succeeds and installs 1, the default bound when the function was defined, whatever the current seed |
| AwesomeRng.Generator.Next | python/awesome_rng.py:52-60 | the seed becomes Step of the old seed and nothing else changes; the new seed is what the Draw call of the call-sequence model gives; the result is the new seed over 2^31, in [0, 1); from an odd seed it lies in (0, 1) and the seed stays odd; from 0 both stay 0 |
| AwesomeRng.Generator.DrawMany | python/test_awesome_rng.py:16 | n draws in a row return exactly Outputs(old seed, n) and leave the seed n steps on; all values lie in [0, 1), and in (0, 1) from an odd seed |

Determinism follows from the form of the model. `Next`'s result and new seed
are functions of the old seed alone. There is no other input, so two
generators given the same seed produce the same sequence (`DrawMany`).

## Left out

- `awesome_rng_cli` (python/awesome_rng.py:62-101): argument parsing and
  logging. Its hard-coded `init_awesome_rng(6)` always raises, because 6 is
  even. The model does not reproduce that call site.
- `set_up_logger` (python/awesome_rng.py:103-135): wall-clock timestamps,
  platform detection, directory creation and log handlers. It is input and
  output only.
- The `__main__` entry point (python/awesome_rng.py:137-139).
- The chi-squared and Kolmogorov–Smirnov tests (python/test_awesome_rng.py:21-36).
  They are floating-point statistics computed by scipy, a foreign library.
- Non-integer seeds: Python would also accept a float such as `3.0`, since
  `%` is defined on it, and then continues with float arithmetic. The model
  takes integer seeds only. The bool `True` is an integer subtype in Python
  and behaves exactly as the seed 1, which the model covers.
- IEEE double rounding of `SEED / 2**31`: the output is an exact real. This
  is exact for every seed the step can produce. It is not exact for a huge
  seed installed by `init_awesome_rng` before any draw, but that seed is
  never returned as a value.
- Sharing the seed between callers: the source keeps it in one module
  global, and every caller sees the same state. The model gives each
  `Generator` object its own seed.

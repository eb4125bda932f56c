# Random raw-interaction generation command, modelled in Dafny

This project models the command `cli_rng_gen_raw_interactions` of the
interaction-language tool. The command reads a signature file, takes a
number of options, and writes a requested number of *distinct* randomly
generated interactions to files `i0.<ext>`, `i1.<ext>`, … in an output
folder. A shared retry budget bounds the work.

The model has five modules:

- `Machine` (machine.dfy): Rust's `u32`/`u64`, and overflow in two forms. A
  debug build panics on overflow; a release build wraps modulo 2^32. It also
  defines the panics the command can raise and the decimal text that `{:}`
  prints for an integer.
- `Defaults` (defaults.dfy): the options after parsing and their defaults.
  An option is absent or holds a value that has already been parsed.
- `Probas` (probas.dfy): the dispatch on the `probas` option and the name
  reported for the chosen preset.
- `Sampler` (sampler.dfy): the bounded-retry unique-sampling loop. It is an
  imperative method, `Sample`, proved equal to a specification function,
  `Run`. `RunProperties` then proves what a run does, against a reference
  definition: `FirstSeen(gen, k)`, the distinct interactions among the first
  k generator outcomes, in order of first appearance.
- `GenRawInteractions` (gen_raw_interactions.dfy): the whole command. This
  is a specification function `Command` plus the method
  `CliRngGenRawInteractions` that implements it.

The generator is an oracle. `gen(k)` is the outcome of the k-th generator
call. The random source is seeded once, so that outcome is fixed by the seed
and by what the generator receives (context, `max_depth`, `min_symbols`,
probabilities). Under this modelling the whole command is a function of its
inputs. Writing a file is modelled as appending its name and its interaction
to a log.

Behaviour worth knowing, as the code has it:

- An unknown `probas` value panics. It is not a recoverable error.
- The `protocols_with_coreg` preset is reported under the name
  "conservative".
- The probability-sum check runs before the preset dispatch. It applies
  whichever preset is chosen, and also when an unknown name is given.
- The result is `(status lines, 0, 0.0)` both when the target was reached
  and when the retry budget ran out. The number of interactions produced and
  the reason the loop stopped are not returned. Only a parse failure gives
  code 1.
- The retry counter is a `u32`, so `max_tries <= 0` means `max_tries == 0`.
- A budget of 0 has different effects per build. At the first unproductive
  attempt, a debug build panics when it subtracts 1 from 0, even if files
  were already written. A release build wraps to 2^32 - 1 and goes on: 2^32
  unproductive attempts in all. Productive attempts cost nothing in either
  build.
- The default budget `num_ints*100*min_symbols` is computed in `u32`. A debug
  build panics if either product overflows. The first product can overflow
  even when `min_symbols` is 0.

## Model

| member | source | states |
|---|---|---|
| `Machine.Mul32` | src/ui/commands/cli_rng_gen_raw_interactions.rs:92 | `u32` multiplication: a panic exactly when a debug build overflows, otherwise the product modulo 2^32 |
| `Machine.Sub32` | src/ui/commands/cli_rng_gen_raw_interactions.rs:312 | `u32` subtraction: a panic exactly when a debug build goes below zero; any result plus the subtrahend gives back the minuend modulo 2^32 |
| `Machine.Decimal` | src/ui/commands/cli_rng_gen_raw_interactions.rs:270-302 | what `{:}` prints for an unsigned integer: at least one character, only digits, and no leading zero unless the number is 0; read back in `DecimalRoundTrip` |
| `Machine.DecimalThenText` | src/ui/commands/cli_rng_gen_raw_interactions.rs:275-279 | a printed number followed by text that does not start with a digit determines both the number and that text |
| `Machine.DecimalRoundTrip` | src/ui/commands/cli_rng_gen_raw_interactions.rs:302 | the decimal text of an ordinal reads back as that ordinal, so distinct ordinals print differently |
| `Defaults.DefaultNumTriesValue` | src/ui/commands/cli_rng_gen_raw_interactions.rs:90-97 | the default budget `num_ints*100*min_symbols`: a debug build panics iff one of the two products reaches 2^32 and otherwise gives the exact product; a release build gives the product modulo 2^32 |
| `Defaults.DefaultNumTries` | src/ui/commands/cli_rng_gen_raw_interactions.rs:90-93 | the default budget `number_of_interactions*100*min_symbols`, left to right in `u32`; only a debug build can panic (its value is given by `DefaultNumTriesValue`) |
| `Defaults.ResolveWeights` | src/ui/commands/cli_rng_gen_raw_interactions.rs:98-213 | each of the thirteen weights keeps its given value; when absent, `pempty` and `paction` default to 0.5 and the other eleven to 0.0 |
| `Defaults.Resolve` | src/ui/commands/cli_rng_gen_raw_interactions.rs:62-235 | every absent option takes its default (350, 10, 100, 0, "gen_ints", weights 0.5/0.5/0…); every present option is kept as given; the default budget is computed only when `num_tries` is absent, and its overflow is the only failure |
| `Defaults.AllDefaults` | src/ui/commands/cli_rng_gen_raw_interactions.rs:62-235 | with no options at all: 350 interactions, depth 10, 100 symbols, 3 500 000 retries, seed 0, folder `gen_ints`, in either build |
| `Probas.Select` | src/ui/commands/cli_rng_gen_raw_interactions.rs:237-264 | absent gives the default preset; any of the four known names selects the preset it names, with "custom" taking the thirteen weights; any other name panics with that name; the reported name is "conservative" for both conservative presets, "custom" for custom and "default" otherwise |
| `Probas.SelectByKey` | src/ui/commands/cli_rng_gen_raw_interactions.rs:240-257 | every preset is reached through its own key, and is reported under that key except protocols_with_coreg |
| `Probas.AbsentIsDefault` | src/ui/commands/cli_rng_gen_raw_interactions.rs:255-264 | leaving `probas` out is the same as passing "default" |
| `Probas.ConservativeNameShared` | src/ui/commands/cli_rng_gen_raw_interactions.rs:241-248 | conservative and protocols_with_coreg are different presets reported under the same name |
| `Sampler.FileNameInjective` | src/ui/commands/cli_rng_gen_raw_interactions.rs:302 | two ordinals with the same file name `i<x>.<ext>` are equal |
| `Sampler.FileName` | src/ui/commands/cli_rng_gen_raw_interactions.rs:302 | definition of the name `i<x>.<ext>`; its shape is stated in `FileNameFormat` and its injectivity in `FileNameInjective` |
| `Sampler.FileNameFormat` | src/ui/commands/cli_rng_gen_raw_interactions.rs:302 | a file name is `i`, then digits that read back as the ordinal, then `.` and the extension |
| `Sampler.Step` | src/ui/commands/cli_rng_gen_raw_interactions.rs:293-317 | one pass of the loop body makes exactly one generator call and writes at most one file, only ever appending; its effect on the loop's variables is stated by `StepInv` and `RunProperties` |
| `Sampler.Run` | src/ui/commands/cli_rng_gen_raw_interactions.rs:291-319 | the loop `while x < number_of_interactions` with its two exits; it always stops, leaves a stopped state alone, and only appends files and attempts; what it computes is stated by `RunProperties` |
| `Sampler.FirstSeenExact` | src/ui/commands/cli_rng_gen_raw_interactions.rs:294-305 | the reference sequence holds every interaction the first k generator calls returned, and nothing else |
| `Sampler.FirstSeenDistinct` | src/ui/commands/cli_rng_gen_raw_interactions.rs:300-305 | the reference sequence has no repeated interaction |
| `Sampler.FirstSeenPrefix` | src/ui/commands/cli_rng_gen_raw_interactions.rs:300-306 | the reference sequence only grows, by at most one interaction per generator call |
| `Sampler.RunProperties` | src/ui/commands/cli_rng_gen_raw_interactions.rs:286-319 | a run always stops; it writes at most the target, and exactly the target iff it stopped for that reason; file k is `i<k>.<ext>` and holds the k-th first-seen interaction; no two files hold equal interactions; `memoized_ints` holds the same interactions and has size `x`; every attempt either produced or cost one retry; the counter equals the budget minus the unproductive attempts (wrapping); the run stops on budget exhaustion exactly when the unproductive attempts reach the allowance; it underflows exactly when a debug build with a budget of 0 stops short of the target, whatever was written before; it makes no attempt after it may stop |
| `Sampler.TargetZero` | src/ui/commands/cli_rng_gen_raw_interactions.rs:291 | a target of 0 makes no generator call, writes nothing and leaves the counter untouched |
| `Sampler.AlwaysNovel` | src/ui/commands/cli_rng_gen_raw_interactions.rs:294-306 | a generator that always returns something new fills the target in exactly `target` calls, writing its outputs in order, whatever the budget |
| `Sampler.AlwaysSame` | src/ui/commands/cli_rng_gen_raw_interactions.rs:300-316 | a generator that always returns the same interaction writes it once; with a target of at least 2 and a budget b of at least 1, the run ends after exactly b + 1 calls with the counter at zero |
| `Sampler.ZeroBudgetFirstMiss` | src/ui/commands/cli_rng_gen_raw_interactions.rs:290-315 | budget 0 and an unproductive first call: a debug build panics on that call with nothing written; a release build wraps the counter and keeps trying |
| `Sampler.ZeroBudgetLaterMiss` | src/ui/commands/cli_rng_gen_raw_interactions.rs:300-315 | budget 0 in a debug build with a constant generator: the first call writes `i0`, the second is a duplicate and panics, so the panic comes after a file was written |
| `Sampler.Sample` | src/ui/commands/cli_rng_gen_raw_interactions.rs:286-319 | the loop as written, with `x`, `max_tries`, `got_one` and `memoized_ints`, equals `Run` from a fresh state; it writes at most the target, files named `i0…` in order, pairwise distinct interactions, a memo of size `x`, and at most `x` plus the allowance attempts |
| `GenRawInteractions.Prepare` | src/ui/commands/cli_rng_gen_raw_interactions.rs:62-264 | the steps before the loop fail in source order: a budget overflow first (`MultiplyOverflow`), then bad probabilities whatever the preset (`ProbabilitiesDoNotSumToOne`), then an unknown preset (`UnknownProbas` carrying the name given); otherwise it returns the resolved settings and the selection |
| `GenRawInteractions.StatusLines` | src/ui/commands/cli_rng_gen_raw_interactions.rs:268-284 | the four status lines; `StatusLinesInjective` shows that they determine what they report |
| `GenRawInteractions.StatusLinesInjective` | src/ui/commands/cli_rng_gen_raw_interactions.rs:268-284 | equal status lines mean the same preset name, `num_ints`, `max_depth`, `min_symbols`, seed and folder |
| `GenRawInteractions.Command` | src/ui/commands/cli_rng_gen_raw_interactions.rs:54-326 | a parse failure returns `([message], 1, 0.0)` and writes nothing; code 1 occurs only then; a failure before the loop panics with nothing written; otherwise the files written are exactly the loop's log (so they obey the loop's guarantees: at most `num_ints`, named `i0…` in order, pairwise distinct), the command panics iff the loop underflowed (only a debug build with a zero budget), and else returns the four status lines with code 0 |
| `GenRawInteractions.ExitIgnoresGenerator` | src/ui/commands/cli_rng_gen_raw_interactions.rs:268-323 | when the command returns, what it returns does not depend on the generator: the produced count is not reported |
| `GenRawInteractions.ExhaustedStillSucceeds` | src/ui/commands/cli_rng_gen_raw_interactions.rs:310-323 | a run that exhausts its budget still returns the status lines with code 0, having written fewer files than requested |
| `GenRawInteractions.SumCheckedBeforePreset` | src/ui/commands/cli_rng_gen_raw_interactions.rs:215-264 | bad probabilities panic before any preset is looked at, and nothing is written |
| `GenRawInteractions.CliRngGenRawInteractions` | src/ui/commands/cli_rng_gen_raw_interactions.rs:54-326 | the command as a method that calls the sampling loop, equal to `Command` |

## Left out

- The floating-point weights are modelled as `real`. The `f32` sum test
  against `f32::EPSILON` (line 215) is the input predicate `sumOk`, because
  it is floating-point arithmetic. A failing test panics.
- Parsing option text with `trim().parse().unwrap()` is left out. An option
  arrives absent or already parsed. A malformed number, which panics in the
  source, is not modelled.
- `parse_hsf_file` is file input plus a parser. It is an input `Result`
  whose error carries the message text.
- `StdRng::seed_from_u64` and `generate_raw_random_interaction` are not
  visible. They become the oracle `gen`, indexed by the attempt number.
- The contents of each `InteractionSymbolsProbabilities` preset are defined
  in the generator's code, which is not part of this model. A preset is
  named, not spelled out.
- `interaction_to_hif` is file output. Joining the folder and file name
  with `PathBuf` is left out too. Each written file is a log entry holding
  its name inside the folder and its interaction. Write failures are not
  modelled.
- `HIBOU_INTERACTION_FILE_EXTENSION` is defined in
  src/io/file_extensions.rs, which is not part of this model. The extension
  is the parameter `ext`.
- Interaction equality and hashing are Dafny equality on an abstract type,
  with the `HashSet` as a `set`.
- The `println!` progress lines, the timer import, and the imported but
  unused drawing, automata and NFA-translation items are left out. They are
  output or unused.

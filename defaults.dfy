/** The command's options after parsing, and the values they take when the
    user leaves them out (src/ui/commands/cli_rng_gen_raw_interactions.rs,
    lines 62-235). Parsing option text with `parse().unwrap()` is outside the
    model: an option is either absent or an already-parsed value. */
module Defaults {
  import opened Machine

  /** The thirteen interaction-symbol weights, in the order the `custom`
      preset receives them. Each `f32` is modelled by a `real`. */
  datatype Weights = Weights(
    empty: real, action: real, strict: real, sequence: real, coreg: real,
    par: real, loopStrict: real, loopWeak: real, loopPar: real, alt: real,
    basic: real, transmission: real, broadcast: real)

  datatype WeightOptions = WeightOptions(
    empty: Option<real>, action: Option<real>, strict: Option<real>,
    sequence: Option<real>, coreg: Option<real>, par: Option<real>,
    loopStrict: Option<real>, loopWeak: Option<real>, loopPar: Option<real>,
    alt: Option<real>, basic: Option<real>, transmission: Option<real>,
    broadcast: Option<real>)

  /** The options as the command receives them. */
  datatype Options = Options(
    numInts: Option<u32>, maxDepth: Option<u32>, minSymbols: Option<u32>,
    numTries: Option<u32>, weights: WeightOptions, seed: Option<u64>,
    folder: Option<string>, probas: Option<string>)

  /** The values the command works with once every default is applied. */
  datatype Settings = Settings(
    numInts: u32, maxDepth: u32, minSymbols: u32, numTries: u32,
    weights: Weights, seed: u64, folder: string)

  const DEFAULT_NUM_INTS: u32 := 350
  const DEFAULT_MAX_DEPTH: u32 := 10
  const DEFAULT_MIN_SYMBOLS: u32 := 100
  /** Retries granted per requested interaction and per minimum symbol. */
  const TRIES_FACTOR: u32 := 100
  const DEFAULT_SEED: u64 := 0
  const DEFAULT_FOLDER: string := "gen_ints"

  function OrElse<T>(o: Option<T>, default: T): T {
    match o
    case Some(v) => v
    case None => default
  }

  /** `pempty` and `paction` default to one half, every other weight to zero. */
  function ResolveWeights(w: WeightOptions): (r: Weights)
    ensures r.empty == (if w.empty.Some? then w.empty.value else 0.5)
    ensures r.action == (if w.action.Some? then w.action.value else 0.5)
    ensures r.strict == (if w.strict.Some? then w.strict.value else 0.0)
    ensures r.sequence == (if w.sequence.Some? then w.sequence.value else 0.0)
    ensures r.coreg == (if w.coreg.Some? then w.coreg.value else 0.0)
    ensures r.par == (if w.par.Some? then w.par.value else 0.0)
    ensures r.loopStrict == (if w.loopStrict.Some? then w.loopStrict.value else 0.0)
    ensures r.loopWeak == (if w.loopWeak.Some? then w.loopWeak.value else 0.0)
    ensures r.loopPar == (if w.loopPar.Some? then w.loopPar.value else 0.0)
    ensures r.alt == (if w.alt.Some? then w.alt.value else 0.0)
    ensures r.basic == (if w.basic.Some? then w.basic.value else 0.0)
    ensures r.transmission == (if w.transmission.Some? then w.transmission.value else 0.0)
    ensures r.broadcast == (if w.broadcast.Some? then w.broadcast.value else 0.0)
  {
    Weights(
      OrElse(w.empty, 0.5), OrElse(w.action, 0.5), OrElse(w.strict, 0.0),
      OrElse(w.sequence, 0.0), OrElse(w.coreg, 0.0), OrElse(w.par, 0.0),
      OrElse(w.loopStrict, 0.0), OrElse(w.loopWeak, 0.0), OrElse(w.loopPar, 0.0),
      OrElse(w.alt, 0.0), OrElse(w.basic, 0.0), OrElse(w.transmission, 0.0),
      OrElse(w.broadcast, 0.0))
  }

  /** The default retry budget `number_of_interactions*100*min_symbols`,
      evaluated left to right in `u32`. */
  function DefaultNumTries(mode: ArithMode, numInts: u32, minSymbols: u32): (r: Option<u32>)
    ensures r.None? ==> mode == DebugChecks
  {
    match Mul32(mode, numInts, TRIES_FACTOR)
    case None => None
    case Some(p) => Mul32(mode, p, minSymbols)
  }

  /** A debug build panics exactly when one of the two products leaves the
      `u32` range (the first one can, even with `min_symbols` zero) and
      otherwise yields the exact product; a release build always yields the
      product reduced modulo 2^32. */
  lemma DefaultNumTriesValue(mode: ArithMode, numInts: u32, minSymbols: u32)
    ensures mode == DebugChecks ==>
      (DefaultNumTries(mode, numInts, minSymbols).None? <==>
        numInts * 100 >= U32_MODULUS || numInts * 100 * minSymbols >= U32_MODULUS)
    ensures mode == DebugChecks && DefaultNumTries(mode, numInts, minSymbols).Some? ==>
      DefaultNumTries(mode, numInts, minSymbols).value == numInts * 100 * minSymbols
    ensures mode == ReleaseWrap ==>
      DefaultNumTries(mode, numInts, minSymbols) == Some((numInts * 100 * minSymbols) % U32_MODULUS)
  {
    if mode == ReleaseWrap {
      ModMulLeft(numInts * 100, minSymbols);
    }
  }

  lemma ModMulLeft(a: nat, b: nat)
    ensures ((a % U32_MODULUS) * b) % U32_MODULUS == (a * b) % U32_MODULUS
  {
    var q, r := a / U32_MODULUS, a % U32_MODULUS;
    assert a * b == r * b + (q * b) * U32_MODULUS by {
      assert a == q * U32_MODULUS + r;
    }
    ModAddMultiple(r * b, q * b);
  }

  lemma ModAddMultiple(x: nat, k: nat)
    ensures (x + k * U32_MODULUS) % U32_MODULUS == x % U32_MODULUS
  {
  }

  /** Applies the defaults. The only failure is the overflow of the default
      retry budget, which is computed only when `num_tries` is absent. */
  function Resolve(mode: ArithMode, o: Options): (r: Result<Settings, Panic>)
    ensures r.Err? <==>
      (o.numTries.None? &&
       DefaultNumTries(mode, OrElse(o.numInts, DEFAULT_NUM_INTS), OrElse(o.minSymbols, DEFAULT_MIN_SYMBOLS)).None?)
    ensures r.Err? ==> r.error == MultiplyOverflow
    ensures r.Ok? ==>
      && r.value.numInts == (if o.numInts.Some? then o.numInts.value else DEFAULT_NUM_INTS)
      && r.value.maxDepth == (if o.maxDepth.Some? then o.maxDepth.value else DEFAULT_MAX_DEPTH)
      && r.value.minSymbols == (if o.minSymbols.Some? then o.minSymbols.value else DEFAULT_MIN_SYMBOLS)
      && (o.numTries.Some? ==> r.value.numTries == o.numTries.value)
      && (o.numTries.None? ==> Some(r.value.numTries) == DefaultNumTries(mode, r.value.numInts, r.value.minSymbols))
      && r.value.seed == (if o.seed.Some? then o.seed.value else DEFAULT_SEED)
      && r.value.folder == (if o.folder.Some? then o.folder.value else DEFAULT_FOLDER)
      && r.value.weights == ResolveWeights(o.weights)
  {
    var numInts := OrElse(o.numInts, DEFAULT_NUM_INTS);
    var maxDepth := OrElse(o.maxDepth, DEFAULT_MAX_DEPTH);
    var minSymbols := OrElse(o.minSymbols, DEFAULT_MIN_SYMBOLS);
    var numTries :=
      match o.numTries
      case Some(t) => Some(t)
      case None => DefaultNumTries(mode, numInts, minSymbols);
    match numTries
    case None => Err(MultiplyOverflow)
    case Some(t) =>
      Ok(Settings(numInts, maxDepth, minSymbols, t, ResolveWeights(o.weights),
                  OrElse(o.seed, DEFAULT_SEED), OrElse(o.folder, DEFAULT_FOLDER)))
  }

  const NO_WEIGHTS: WeightOptions := WeightOptions(None, None, None, None, None, None, None, None, None, None, None, None, None)
  const NO_OPTIONS: Options := Options(None, None, None, None, NO_WEIGHTS, None, None, None)

  /** With every option absent: 350 interactions, depth 10, 100 symbols,
      350 * 100 * 100 retries, seed 0, folder `gen_ints`, in either build. */
  lemma AllDefaults(mode: ArithMode)
    ensures Resolve(mode, NO_OPTIONS) ==
      Ok(Settings(350, 10, 100, 3500000,
                  Weights(0.5, 0.5, 0.0, 0.0, 0.0, 0.0, 0.0, 0.0, 0.0, 0.0, 0.0, 0.0, 0.0),
                  0, "gen_ints"))
  {
  }
}

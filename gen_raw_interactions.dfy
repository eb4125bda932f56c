/** The command `cli_rng_gen_raw_interactions`
    (src/ui/commands/cli_rng_gen_raw_interactions.rs, lines 54-326): parse the
    signature file, apply the option defaults, check the probabilities, choose
    the preset, build the status lines, run the sampling loop and return.

    The signature parser, the random generator and the file writer are
    outside the model: the parse is an input `Result`, the generator an
    oracle `gen` that receives what the real generator receives (context,
    bounds, probabilities and seed), and the files written are a log. The
    floating-point test of line 215 is an input predicate `sumOk`. */
module GenRawInteractions {
  import opened Machine
  import opened Defaults
  import opened Probas
  import opened Sampler

  /** How the command ends: it returns `(lines, code, 0.0)` or it panics. */
  datatype Exit = Returned(lines: seq<string>, code: u32, extra: real) | Panicked(reason: Panic)

  /** Everything the generator is handed for one run: the generation context,
      `max_depth`, `min_symbols`, the probabilities, and the seed of the
      random source. */
  datatype GenSetup<C> = GenSetup(ctx: C, maxDepth: u32, minSymbols: u32, preset: Preset, seed: u64)

  /** The command's exit together with the files it wrote before it ended. */
  datatype Outcome<A> = Outcome(exit: Exit, written: seq<Persisted<A>>)

  /** The four status lines of lines 268-284. */
  function StatusLines(s: Settings, probasName: string): (lines: seq<string>)
    ensures |lines| == 4
  {
    [ "generated random interactions interactions",
      "with " + probasName + " interaction symbols selection probabilities",
      "num_ints : " + Decimal(s.numInts) + ", max_depth : " + Decimal(s.maxDepth)
        + ", min_symbols : " + Decimal(s.minSymbols) + ", seed : " + Decimal(s.seed),
      "in folder '" + s.folder + "'" ]
  }

  lemma StripPrefix(p: string, x: string, y: string)
    requires p + x == p + y
    ensures x == y
  {
    assert x == (p + x)[|p|..];
  }

  /** Equal texts that differ only between a fixed prefix and a fixed suffix
      agree there too. */
  lemma StripAround(p: string, x: string, y: string, q: string)
    requires p + x + q == p + y + q
    ensures x == y
  {
    assert x == (p + x + q)[|p|..|p| + |x|];
  }

  lemma Regroup(p: string, a: string, d: string, b: string, m: string, c: string, y: string, e: string)
    ensures p + a + d + b + m + c + y + e == p + (a + (d + (b + (m + (c + (y + e))))))
  {
  }

  /** The status lines report the settings faithfully: two runs that print
      the same lines used the same preset name, `num_ints`, `max_depth`,
      `min_symbols`, seed and folder. */
  lemma StatusLinesInjective(s1: Settings, n1: string, s2: Settings, n2: string)
    requires StatusLines(s1, n1) == StatusLines(s2, n2)
    ensures n1 == n2
    ensures s1.numInts == s2.numInts && s1.maxDepth == s2.maxDepth && s1.minSymbols == s2.minSymbols
    ensures s1.seed == s2.seed && s1.folder == s2.folder
  {
    var l1, l2 := StatusLines(s1, n1), StatusLines(s2, n2);
    assert l1[1] == l2[1] && l1[2] == l2[2] && l1[3] == l2[3];
    StripAround("with ", n1, n2, " interaction symbols selection probabilities");
    StripAround("in folder '", s1.folder, s2.folder, "'");

    var d, m, y := ", max_depth : ", ", min_symbols : ", ", seed : ";
    var a1, b1, c1, e1 := Decimal(s1.numInts), Decimal(s1.maxDepth), Decimal(s1.minSymbols), Decimal(s1.seed);
    var a2, b2, c2, e2 := Decimal(s2.numInts), Decimal(s2.maxDepth), Decimal(s2.minSymbols), Decimal(s2.seed);
    var t1 := a1 + (d + (b1 + (m + (c1 + (y + e1)))));
    var t2 := a2 + (d + (b2 + (m + (c2 + (y + e2)))));
    assert l1[2] == "num_ints : " + t1 by { Regroup("num_ints : ", a1, d, b1, m, c1, y, e1); }
    assert l2[2] == "num_ints : " + t2 by { Regroup("num_ints : ", a2, d, b2, m, c2, y, e2); }
    StripPrefix("num_ints : ", t1, t2);
    DecimalThenText(s1.numInts, s2.numInts, d + (b1 + (m + (c1 + (y + e1)))), d + (b2 + (m + (c2 + (y + e2)))));
    StripPrefix(d, b1 + (m + (c1 + (y + e1))), b2 + (m + (c2 + (y + e2))));
    DecimalThenText(s1.maxDepth, s2.maxDepth, m + (c1 + (y + e1)), m + (c2 + (y + e2)));
    StripPrefix(m, c1 + (y + e1), c2 + (y + e2));
    DecimalThenText(s1.minSymbols, s2.minSymbols, y + e1, y + e2);
    StripPrefix(y, e1, e2);
    DecimalInjective(s1.seed, s2.seed);
  }

  /** Everything between the parse and the loop, in source order: the
      defaults (the default retry budget may overflow), the probability-sum
      check, then the preset dispatch. */
  function Prepare(mode: ArithMode, opts: Options, sumOk: Weights -> bool): (r: Result<(Settings, Selection), Panic>)
    ensures Resolve(mode, opts).Err? ==> r == Err(MultiplyOverflow)
    ensures Resolve(mode, opts).Ok? && !sumOk(Resolve(mode, opts).value.weights) ==>
      r == Err(ProbabilitiesDoNotSumToOne)
    ensures r.Ok? <==>
      Resolve(mode, opts).Ok? && sumOk(Resolve(mode, opts).value.weights) &&
      (opts.probas.None? || opts.probas.value in KNOWN_PROBAS)
    ensures Resolve(mode, opts).Ok? && sumOk(Resolve(mode, opts).value.weights) &&
            opts.probas.Some? && opts.probas.value !in KNOWN_PROBAS ==>
      r == Err(UnknownProbas(opts.probas.value))
    ensures r.Ok? ==> r.value.0 == Resolve(mode, opts).value
    ensures r.Ok? ==> Select(opts.probas, r.value.0.weights) == Ok(r.value.1)
  {
    match Resolve(mode, opts)
    case Err(p) => Err(p)
    case Ok(s) =>
      if !sumOk(s.weights) then Err(ProbabilitiesDoNotSumToOne)
      else
        match Select(opts.probas, s.weights)
        case Err(p) => Err(p)
        case Ok(sel) => Ok((s, sel))
  }

  /** The generator outcomes the loop sees once the settings are known. */
  function Oracle<C, A>(gen: GenSetup<C> -> nat -> Option<A>, ctx: C, s: Settings, sel: Selection): nat -> Option<A> {
    gen(GenSetup(ctx, s.maxDepth, s.minSymbols, sel.preset, s.seed))
  }

  /** The whole command. A parse failure returns its message with code 1 and
      writes nothing; a panic before the loop writes nothing; otherwise the
      status lines are returned with code 0 however the loop ended, unless a
      debug build underflowed the retry counter. */
  function Command<C, A(==)>(mode: ArithMode, parsed: Result<C, string>, opts: Options,
                             sumOk: Weights -> bool, gen: GenSetup<C> -> nat -> Option<A>, ext: string): (out: Outcome<A>)
    ensures parsed.Err? ==> out == Outcome(Returned([parsed.error], 1, 0.0), [])
    ensures out.exit.Returned? ==> out.exit.extra == 0.0 && (out.exit.code == 1 <==> parsed.Err?)
    ensures out.exit.Returned? ==> out.exit.code == 0 || out.exit.code == 1
    ensures parsed.Ok? && Prepare(mode, opts, sumOk).Err? ==>
      out == Outcome(Panicked(Prepare(mode, opts, sumOk).error), [])
    ensures parsed.Ok? && Prepare(mode, opts, sumOk).Ok? ==>
      var (s, sel) := Prepare(mode, opts, sumOk).value;
      && |out.written| <= s.numInts
      && (forall i :: 0 <= i < |out.written| ==> out.written[i].file == FileName(i, ext))
      && (forall i, j :: 0 <= i < j < |out.written| ==> out.written[i].artifact != out.written[j].artifact)
      && (out.exit.Returned? ==> out.exit == Returned(StatusLines(s, sel.name), 0, 0.0))
      && (out.exit.Panicked? ==> out.exit.reason == SubtractOverflow && mode == DebugChecks && s.numTries == 0)
      && out.written == Run(Oracle(gen, parsed.value, s, sel), mode, ext, s.numInts, Start(s.numTries)).log
      && (out.exit.Panicked? <==>
            Run(Oracle(gen, parsed.value, s, sel), mode, ext, s.numInts, Start(s.numTries)).status == Underflowed)
  {
    match parsed
    case Err(e) => Outcome(Returned([e], 1, 0.0), [])
    case Ok(ctx) =>
      match Prepare(mode, opts, sumOk)
      case Err(p) => Outcome(Panicked(p), [])
      case Ok((s, sel)) =>
        var oracle := Oracle(gen, ctx, s, sel);
        RunProperties(oracle, mode, ext, s.numInts, s.numTries);
        var r := Run(oracle, mode, ext, s.numInts, Start(s.numTries));
        if r.status == Underflowed then Outcome(Panicked(SubtractOverflow), r.log)
        else Outcome(Returned(StatusLines(s, sel.name), 0, 0.0), r.log)
  }

  /** What is returned never depends on the generator: the number of
      interactions actually produced is not reported. */
  lemma ExitIgnoresGenerator<C, A>(mode: ArithMode, parsed: Result<C, string>, opts: Options, sumOk: Weights -> bool,
                                      gen1: GenSetup<C> -> nat -> Option<A>, gen2: GenSetup<C> -> nat -> Option<A>, ext: string)
    requires Command(mode, parsed, opts, sumOk, gen1, ext).exit.Returned?
    requires Command(mode, parsed, opts, sumOk, gen2, ext).exit.Returned?
    ensures Command(mode, parsed, opts, sumOk, gen1, ext).exit == Command(mode, parsed, opts, sumOk, gen2, ext).exit
  {
  }

  /** A run that exhausts its retry budget still returns code 0 with the
      usual status lines, after writing fewer files than requested. */
  lemma ExhaustedStillSucceeds<C, A>(mode: ArithMode, ctx: C, opts: Options, sumOk: Weights -> bool,
                                        gen: GenSetup<C> -> nat -> Option<A>, ext: string)
    requires Prepare(mode, opts, sumOk).Ok?
    requires var (s, sel) := Prepare(mode, opts, sumOk).value;
      Run(Oracle(gen, ctx, s, sel), mode, ext, s.numInts, Start(s.numTries)).status == BudgetExhausted
    ensures var (s, sel) := Prepare(mode, opts, sumOk).value;
      var out := Command(mode, Ok(ctx), opts, sumOk, gen, ext);
      out.exit == Returned(StatusLines(s, sel.name), 0, 0.0) && |out.written| < s.numInts
  {
    var (s, sel) := Prepare(mode, opts, sumOk).value;
    RunProperties(Oracle(gen, ctx, s, sel), mode, ext, s.numInts, s.numTries);
  }

  /** The probability-sum check runs whatever preset is asked for, so even a
      named preset, or an unknown name, panics first on bad weights. */
  lemma SumCheckedBeforePreset<C, A>(mode: ArithMode, ctx: C, opts: Options, sumOk: Weights -> bool,
                                        gen: GenSetup<C> -> nat -> Option<A>, ext: string)
    requires Resolve(mode, opts).Ok? && !sumOk(Resolve(mode, opts).value.weights)
    ensures Command(mode, Ok(ctx), opts, sumOk, gen, ext) == Outcome(Panicked(ProbabilitiesDoNotSumToOne), [])
  {
  }

  /** The command itself. */
  method CliRngGenRawInteractions<C, A(==)>(mode: ArithMode, parsed: Result<C, string>, opts: Options,
                                            sumOk: Weights -> bool, gen: GenSetup<C> -> nat -> Option<A>, ext: string)
    returns (out: Outcome<A>)
    ensures out == Command(mode, parsed, opts, sumOk, gen, ext)
  {
    if parsed.Err? {
      return Outcome(Returned([parsed.error], 1, 0.0), []);
    }
    var ctx := parsed.value;
    var prepared := Prepare(mode, opts, sumOk);
    if prepared.Err? {
      return Outcome(Panicked(prepared.error), []);
    }
    var (settings, selection) := prepared.value;
    var lines := StatusLines(settings, selection.name);
    var r := Sample(Oracle(gen, ctx, settings, selection), mode, ext, settings.numInts, settings.numTries);
    if r.status == Underflowed {
      return Outcome(Panicked(SubtractOverflow), r.log);
    }
    out := Outcome(Returned(lines, 0, 0.0), r.log);
  }
}

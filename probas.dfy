/** Choice of the interaction-symbol probabilities from the `probas` option
    (src/ui/commands/cli_rng_gen_raw_interactions.rs, lines 237-264). The
    presets' own numbers live in the generator's code, which is not part of
    this model; a preset is named here, not spelled out. */
module Probas {
  import opened Machine
  import opened Defaults

  datatype Preset =
    | Conservative
    | ProtocolsWithCoreg
    | Custom(weights: Weights)
    | DefaultNonRegular

  /** The preset chosen and the name the command reports for it. */
  datatype Selection = Selection(preset: Preset, name: string)

  const KNOWN_PROBAS: set<string> := {"conservative", "protocols_with_coreg", "custom", "default"}

  /** The `probas` value that selects a preset. */
  function KeyOf(p: Preset): string {
    match p
    case Conservative => "conservative"
    case ProtocolsWithCoreg => "protocols_with_coreg"
    case Custom(_) => "custom"
    case DefaultNonRegular => "default"
  }

  /** Dispatch on the `probas` option. Absent means the default preset; one of
      the four known values selects the preset it names (the custom preset
      takes the thirteen weights); any other value panics. The reported name is
      "default" unless a branch overwrites it, and the protocols_with_coreg
      branch writes "conservative". */
  function Select(probas: Option<string>, w: Weights): (r: Result<Selection, Panic>)
    ensures r.Err? <==> probas.Some? && probas.value !in KNOWN_PROBAS
    ensures r.Err? ==> r.error == UnknownProbas(probas.value)
    ensures r.Ok? && probas.Some? ==> KeyOf(r.value.preset) == probas.value
    ensures r.Ok? && probas.None? ==> r.value.preset == DefaultNonRegular
    ensures r.Ok? && r.value.preset.Custom? ==> r.value.preset.weights == w
    ensures r.Ok? ==> r.value.name == (if r.value.preset == ProtocolsWithCoreg then "conservative"
                                       else if r.value.preset.Custom? then "custom"
                                       else KeyOf(r.value.preset))
  {
    match probas
    case None => Ok(Selection(DefaultNonRegular, "default"))
    case Some(key) =>
      if key == "conservative" then Ok(Selection(Conservative, "conservative"))
      else if key == "protocols_with_coreg" then Ok(Selection(ProtocolsWithCoreg, "conservative"))
      else if key == "custom" then Ok(Selection(Custom(w), "custom"))
      else if key == "default" then Ok(Selection(DefaultNonRegular, "default"))
      else Err(UnknownProbas(key))
  }

  /** Every preset is reachable through its key, and the reported name does
      not tell the two conservative-named presets apart. */
  lemma {:induction false} SelectByKey(p: Preset, w: Weights)
    requires p.Custom? ==> p.weights == w
    ensures Select(Some(KeyOf(p)), w).Ok?
    ensures Select(Some(KeyOf(p)), w).value.preset == p
    ensures Select(Some(KeyOf(p)), w).value.name ==
      (if p == ProtocolsWithCoreg then "conservative" else KeyOf(p))
  {
  }

  /** Naming the default preset and leaving the option out are the same. */
  lemma AbsentIsDefault(w: Weights)
    ensures Select(None, w) == Select(Some("default"), w)
  {
  }

  /** The reported name is not injective: two distinct presets report
      "conservative". */
  lemma ConservativeNameShared(w: Weights)
    ensures Select(Some("conservative"), w).value.name == Select(Some("protocols_with_coreg"), w).value.name
    ensures Select(Some("conservative"), w).value.preset != Select(Some("protocols_with_coreg"), w).value.preset
  {
  }
}

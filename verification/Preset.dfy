/** Preset vocabulary and the constant tables behind it (src/scroll_dynamics/preset.rs). */
module Preset {
  import opened Prelude

  datatype SmoothPreset = Off | Precise | Balanced | Fast

  datatype PresetParameters = PresetParameters(immediatePerMille: nat, tailDurationUs: u64) {
    predicate IsValid() {
      && immediatePerMille <= 1000
      && if tailDurationUs == 0 then immediatePerMille == 1000 else 0 < immediatePerMille < 1000
    }

    function ImmediateRatio(): real {
      immediatePerMille as real / 1000.0
    }
  }

  function Parameters(preset: SmoothPreset): PresetParameters {
    match preset
    case Off => PresetParameters(1000, 0)
    case Precise => PresetParameters(350, 120_000)
    case Balanced => PresetParameters(550, 90_000)
    case Fast => PresetParameters(750, 60_000)
  }

  /** The table passes the validation that every axis asks of its parameters. */
  lemma ParametersAreValid(preset: SmoothPreset)
    ensures Parameters(preset).IsValid()
    ensures Parameters(preset).tailDurationUs == 0 <==> preset.Off?
  {
  }

  function TailDuration(preset: SmoothPreset): u64 {
    Parameters(preset).tailDurationUs
  }
}

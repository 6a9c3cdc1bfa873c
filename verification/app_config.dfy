/** The client's constant data: the bundled workout presets and the colour
    theme. */
module AppConfig {
  import Timer

  /** A bundled preset, in the server's template field set. */
  datatype Preset = Preset(
    name: string,
    workDuration: int,
    restDuration: int,
    rounds: int,
    sets: int,
    setRestDuration: int)

  const DefaultPresets: seq<Preset> := [
    Preset("经典 HIIT", 20, 10, 8, 1, 60),
    Preset("Tabata", 20, 10, 8, 4, 60),
    Preset("新手入门", 30, 30, 6, 1, 60)
  ]

  /** The timer configuration a preset describes, field by field. */
  function PresetConfig(p: Preset): (cfg: Timer.Config)
    ensures cfg.workDuration == p.workDuration && cfg.restDuration == p.restDuration
    ensures cfg.rounds == p.rounds && cfg.sets == p.sets
    ensures cfg.setRestDuration == p.setRestDuration
  {
    Timer.Config(p.workDuration, p.restDuration, p.rounds, p.sets, p.setRestDuration)
  }

  /** The timer context starts from the first preset. */
  const ContextDefaultConfig: Timer.Config := PresetConfig(DefaultPresets[0])

  /** The context's starting plan is the hook's own fallback, and every
      bundled preset is a plan the engine is meant to run. */
  lemma DefaultsAgree()
    ensures ContextDefaultConfig == Timer.DefaultConfig
    ensures forall i :: 0 <= i < |DefaultPresets| ==> Timer.ValidConfig(PresetConfig(DefaultPresets[i]))
  {
  }

  const Primary := "#FF6B6B"
  const WorkColor := "#FF6B6B"
  const RestColor := "#4ECDC4"
  const Success := "#10B981"
}

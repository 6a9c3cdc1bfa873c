/** The interval timer of the client's `useTimer` hook, as pure step
    functions over an immutable configuration and session state.

    A session runs `sets` sets; a set is `rounds` work phases separated by
    rest phases; sets are separated by a set rest. One tick is one elapsed
    second while the session is running and not paused. */
module Timer {
  import opened Optional

  datatype Phase = Idle | Work | Rest | SetRest | Complete

  datatype Config = Config(
    workDuration: int,
    restDuration: int,
    rounds: int,
    sets: int,
    setRestDuration: int)

  datatype State = State(
    phase: Phase,
    timeRemaining: int,
    currentRound: int,
    currentSet: int,
    totalTime: int,
    isRunning: bool,
    isPaused: bool)

  /** The haptic cues the hook asks for; playing them is out of the model. */
  datatype Feedback = WorkCue | RestCue | CompleteCue | Countdown

  /** A new state together with the cues emitted while reaching it. */
  datatype Step = Step(state: State, events: seq<Feedback>)

  /** The hook's fallback configuration: 20 s work, 10 s rest, 8 rounds, 1 set, 60 s set rest. */
  const DefaultConfig := Config(20, 10, 8, 1, 60)

  /** Configurations the engine is meant to run: at least one round and one
      set, no negative duration. */
  predicate ValidConfig(cfg: Config) {
    cfg.rounds >= 1 && cfg.sets >= 1
    && cfg.workDuration >= 0 && cfg.restDuration >= 0 && cfg.setRestDuration >= 0
  }

  /** Ticks have an effect only in this condition. */
  predicate Live(s: State) {
    s.isRunning && !s.isPaused
  }

  /** The cue that announces entry into a phase. */
  function CueFor(p: Phase): Feedback {
    match p
    case Work => WorkCue
    case Complete => CompleteCue
    case _ => RestCue
  }

  /** What every observable session state satisfies under a fixed valid
      configuration. The rest and set-rest clauses are what make the round and
      set counters stay in range when those phases end; the running clause
      keeps ticks away from idle and complete, whose clock they would push
      below zero. */
  predicate Inv(cfg: Config, s: State) {
    && 1 <= s.currentRound <= cfg.rounds
    && 1 <= s.currentSet <= cfg.sets
    && s.timeRemaining >= 0
    && s.totalTime >= 0
    && (s.phase == Idle ==> s.currentRound == 1 && s.currentSet == 1 && s.totalTime == 0)
    && (s.isRunning <==> s.phase != Idle && s.phase != Complete)
    && (s.phase == Rest ==> s.currentRound < cfg.rounds)
    && (s.phase == SetRest ==> s.currentRound == cfg.rounds && s.currentSet < cfg.sets)
  }

  /** The idle state shown before the first start and after a reset. */
  function IdleState(cfg: Config): (s: State)
    ensures ValidConfig(cfg) ==> Inv(cfg, s)
    ensures s.phase == Idle && !Live(s)
  {
    State(Idle, cfg.workDuration, 1, 1, 0, false, false)
  }

  /** The hook's initial state for the configuration it is created with. */
  function Initial(cfg: Config): (s: State)
    ensures ValidConfig(cfg) ==> Inv(cfg, s)
    ensures s.phase == Idle && s.timeRemaining == cfg.workDuration
    ensures s.currentRound == 1 && s.currentSet == 1 && s.totalTime == 0
    ensures !s.isRunning && !s.isPaused
  {
    IdleState(cfg)
  }

  /** `reset`: back to idle under the configuration in effect, whatever the
      prior state. */
  function Reset(cfg: Config, s: State): (r: State)
    ensures r == Initial(cfg)
    ensures r.phase == Idle && r.timeRemaining == cfg.workDuration
    ensures r.currentRound == 1 && r.currentSet == 1 && r.totalTime == 0
    ensures !r.isRunning && !r.isPaused
    ensures ValidConfig(cfg) ==> Inv(cfg, r)
  {
    IdleState(cfg)
  }

  /** One second of the session: the `tick` callback. */
  function Tick(cfg: Config, s: State): (r: Step)
    // no effect unless running and unpaused
    ensures !Live(s) ==> r == Step(s, [])
    // every effective tick adds one second to the elapsed total
    ensures Live(s) ==> r.state.totalTime == s.totalTime + 1
    // within a phase: one second less, nothing else changes
    ensures Live(s) && s.timeRemaining - 1 > 0 ==>
      r.state == s.(timeRemaining := s.timeRemaining - 1, totalTime := s.totalTime + 1)
    // the last three seconds of a phase are announced, every second
    ensures Countdown in r.events <==> Live(s) && 0 < s.timeRemaining - 1 <= 3
    // a phase change is announced with the cue of the phase entered, and only then
    ensures r.state.phase != s.phase <==> r.events == [CueFor(r.state.phase)]
    ensures r.state.phase == s.phase ==>
      r.events == (if Live(s) && 0 < s.timeRemaining - 1 <= 3 then [Countdown] else [])
    ensures |r.events| <= 1
    // work ends before the last round: rest
    ensures Live(s) && s.timeRemaining <= 1 && s.phase == Work && s.currentRound < cfg.rounds ==>
      r.state == s.(phase := Rest, timeRemaining := cfg.restDuration, totalTime := s.totalTime + 1)
    // work ends on the last round of a set that is not the last: set rest
    ensures Live(s) && s.timeRemaining <= 1 && s.phase == Work
            && s.currentRound >= cfg.rounds && s.currentSet < cfg.sets ==>
      r.state == s.(phase := SetRest, timeRemaining := cfg.setRestDuration,
                    currentRound := cfg.rounds, totalTime := s.totalTime + 1)
    // work ends on the last round of the last set: the session is complete
    ensures Live(s) && s.timeRemaining <= 1 && s.phase == Work
            && s.currentRound >= cfg.rounds && s.currentSet >= cfg.sets ==>
      r.state == s.(phase := Complete, timeRemaining := 0, totalTime := s.totalTime + 1,
                    isRunning := false)
    // rest ends: next round of work
    ensures Live(s) && s.timeRemaining <= 1 && s.phase == Rest ==>
      r.state == s.(phase := Work, timeRemaining := cfg.workDuration,
                    currentRound := s.currentRound + 1, totalTime := s.totalTime + 1)
    // set rest ends: first round of the next set
    ensures Live(s) && s.timeRemaining <= 1 && s.phase == SetRest ==>
      r.state == s.(phase := Work, timeRemaining := cfg.workDuration,
                    currentRound := 1, currentSet := s.currentSet + 1, totalTime := s.totalTime + 1)
  {
    if !s.isRunning || s.isPaused then Step(s, [])
    else
      var newRemaining := s.timeRemaining - 1;
      var newTotal := s.totalTime + 1;
      var countdown := if newRemaining <= 3 && newRemaining > 0 then [Countdown] else [];
      if newRemaining <= 0 && s.phase == Work then
        if s.currentRound < cfg.rounds then
          Step(s.(phase := Rest, timeRemaining := cfg.restDuration, totalTime := newTotal),
               countdown + [RestCue])
        else if s.currentSet < cfg.sets then
          Step(s.(phase := SetRest, timeRemaining := cfg.setRestDuration,
                  currentRound := cfg.rounds, totalTime := newTotal),
               countdown + [RestCue])
        else
          Step(s.(phase := Complete, timeRemaining := 0, totalTime := newTotal, isRunning := false),
               countdown + [CompleteCue])
      else if newRemaining <= 0 && s.phase == Rest then
        Step(s.(phase := Work, timeRemaining := cfg.workDuration,
                currentRound := s.currentRound + 1, totalTime := newTotal),
             countdown + [WorkCue])
      else if newRemaining <= 0 && s.phase == SetRest then
        Step(s.(phase := Work, timeRemaining := cfg.workDuration, currentRound := 1,
                currentSet := s.currentSet + 1, totalTime := newTotal),
             countdown + [WorkCue])
      else
        Step(s.(timeRemaining := newRemaining, totalTime := newTotal), countdown)
  }

  /** `start`: a fresh session from idle or complete, otherwise carry on
      where the session stands. */
  function Start(cfg: Config, s: State): (r: Step)
    ensures s.phase in {Idle, Complete} ==>
      r == Step(State(Work, cfg.workDuration, 1, 1, 0, true, false), [WorkCue])
    ensures s.phase !in {Idle, Complete} ==>
      r == Step(s.(isRunning := true, isPaused := false), [])
    ensures Live(r.state) && r.state.phase != Idle && r.state.phase != Complete
  {
    if s.phase == Idle || s.phase == Complete then
      Step(s.(phase := Work, timeRemaining := cfg.workDuration, currentRound := 1,
              currentSet := 1, totalTime := 0, isRunning := true, isPaused := false),
           [WorkCue])
    else
      Step(s.(isRunning := true, isPaused := false), [])
  }

  /** `pause`: only the paused flag changes. */
  function Pause(s: State): (r: State)
    ensures r.isPaused && !Live(r)
    ensures r.(isPaused := s.isPaused) == s
  {
    s.(isPaused := true)
  }

  /** `resume`: only the paused flag changes. */
  function Resume(s: State): (r: State)
    ensures !r.isPaused
    ensures r.(isPaused := s.isPaused) == s
  {
    s.(isPaused := false)
  }

  /** The `Partial<TimerConfig>` argument of `updateConfig`: a field is either supplied or absent. */
  datatype ConfigPatch = ConfigPatch(
    workDuration: Option<int>,
    restDuration: Option<int>,
    rounds: Option<int>,
    sets: Option<int>,
    setRestDuration: Option<int>)

  function Pick(o: Option<int>, current: int): int {
    if o.Some? then o.value else current
  }

  /** `updateConfig`: the supplied fields override, the others are kept. */
  function UpdateConfig(cfg: Config, patch: ConfigPatch): (r: Config)
    ensures patch.workDuration.Some? ==> r.workDuration == patch.workDuration.value
    ensures patch.workDuration.None? ==> r.workDuration == cfg.workDuration
    ensures patch.restDuration.Some? ==> r.restDuration == patch.restDuration.value
    ensures patch.restDuration.None? ==> r.restDuration == cfg.restDuration
    ensures patch.rounds.Some? ==> r.rounds == patch.rounds.value
    ensures patch.rounds.None? ==> r.rounds == cfg.rounds
    ensures patch.sets.Some? ==> r.sets == patch.sets.value
    ensures patch.sets.None? ==> r.sets == cfg.sets
    ensures patch.setRestDuration.Some? ==> r.setRestDuration == patch.setRestDuration.value
    ensures patch.setRestDuration.None? ==> r.setRestDuration == cfg.setRestDuration
  {
    Config(
      Pick(patch.workDuration, cfg.workDuration),
      Pick(patch.restDuration, cfg.restDuration),
      Pick(patch.rounds, cfg.rounds),
      Pick(patch.sets, cfg.sets),
      Pick(patch.setRestDuration, cfg.setRestDuration))
  }

  /** The patch that supplies every field of `cfg`. */
  function FullPatch(cfg: Config): ConfigPatch {
    ConfigPatch(Some(cfg.workDuration), Some(cfg.restDuration), Some(cfg.rounds),
                Some(cfg.sets), Some(cfg.setRestDuration))
  }

  /** The hook's effect that keeps an idle display in step with the
      configured work duration; other phases are left alone. */
  function IdleSync(cfg: Config, s: State): (r: State)
    ensures s.phase == Idle ==> r.timeRemaining == cfg.workDuration
    ensures s.phase == Idle ==> r.(timeRemaining := s.timeRemaining) == s
    ensures s.phase != Idle ==> r == s
  {
    if s.phase == Idle then s.(timeRemaining := cfg.workDuration) else s
  }

  /** A tick keeps the invariant under a valid configuration. */
  lemma TickKeepsInv(cfg: Config, s: State)
    requires ValidConfig(cfg) && Inv(cfg, s)
    ensures Inv(cfg, Tick(cfg, s).state)
  {
  }

  lemma StartKeepsInv(cfg: Config, s: State)
    requires ValidConfig(cfg) && Inv(cfg, s)
    ensures Inv(cfg, Start(cfg, s).state)
  {
  }

  lemma PauseResumeKeepInv(cfg: Config, s: State)
    requires Inv(cfg, s)
    ensures Inv(cfg, Pause(s)) && Inv(cfg, Resume(s))
  {
  }

  lemma IdleSyncKeepsInv(cfg: Config, s: State)
    requires ValidConfig(cfg) && Inv(cfg, s)
    ensures Inv(cfg, IdleSync(cfg, s))
  {
  }

  /** Changing the configuration in the middle of a session can leave the
      round counter beyond the new round count: the bound in `Inv` holds per
      configuration, not across `updateConfig`. */
  lemma UpdateConfigCanLeaveRoundOutOfRange()
    ensures var cfg := Config(20, 10, 8, 1, 60);
            var s := State(Work, 5, 6, 1, 100, true, false);
            var cfg' := UpdateConfig(cfg, ConfigPatch(None, None, Some(4), None, None));
            ValidConfig(cfg) && Inv(cfg, s) && ValidConfig(cfg') && !Inv(cfg', s)
  {
  }
}

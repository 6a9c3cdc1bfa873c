/** Runs of many ticks: how long a phase, a set and a whole session last,
    and the scenarios the timer is expected to follow. */
module TimerRuns {
  import opened Timer

  /** The state after `n` ticks; the cues are dropped. */
  function Run(cfg: Config, s: State, n: nat): (r: State)
    ensures s.totalTime <= r.totalTime <= s.totalTime + n
    ensures !Live(s) ==> r == s
    decreases n
  {
    if n == 0 then s else Run(cfg, Tick(cfg, s).state, n - 1)
  }

  lemma {:induction false} RunAdd(cfg: Config, s: State, a: nat, b: nat)
    ensures Run(cfg, s, a + b) == Run(cfg, Run(cfg, s, a), b)
    decreases a
  {
    if a > 0 {
      RunAdd(cfg, Tick(cfg, s).state, a - 1, b);
    }
  }

  /** How many ticks a phase entered with `d` seconds on the clock lasts:
      `d` when positive, otherwise the single tick that ends it. */
  function PhaseLen(d: int): nat {
    if d >= 1 then d else 1
  }

  /** Within a phase each tick takes one second off the clock and adds one to the total. */
  lemma {:induction false} CountDown(cfg: Config, s: State, n: nat)
    requires Live(s) && n < s.timeRemaining
    ensures Run(cfg, s, n) == s.(timeRemaining := s.timeRemaining - n, totalTime := s.totalTime + n)
    decreases n
  {
    if n > 0 {
      CountDown(cfg, Tick(cfg, s).state, n - 1);
    }
  }

  /** A live work, rest or set-rest phase ends after exactly `PhaseLen` ticks,
      the last of which makes the phase transition. */
  lemma RunToPhaseEnd(cfg: Config, s: State)
    requires Live(s) && s.phase != Idle && s.phase != Complete
    ensures var n := PhaseLen(s.timeRemaining);
            Run(cfg, s, n) == Tick(cfg, s.(timeRemaining := 1, totalTime := s.totalTime + n - 1)).state
  {
    var n := PhaseLen(s.timeRemaining);
    if s.timeRemaining >= 1 {
      RunAdd(cfg, s, n - 1, 1);
      CountDown(cfg, s, n - 1);
    }
  }

  function WorkAt(cfg: Config, round: int, setNo: int, total: int): State {
    State(Work, cfg.workDuration, round, setNo, total, true, false)
  }

  function RestAt(cfg: Config, round: int, setNo: int, total: int): State {
    State(Rest, cfg.restDuration, round, setNo, total, true, false)
  }

  function SetRestAt(cfg: Config, setNo: int, total: int): State {
    State(SetRest, cfg.setRestDuration, cfg.rounds, setNo, total, true, false)
  }

  function Finished(cfg: Config, setNo: int, total: int): State {
    State(Complete, 0, cfg.rounds, setNo, total, false, false)
  }

  /** Where the last work phase of set `setNo` leads. */
  function SetEnd(cfg: Config, setNo: int, total: int): State {
    if setNo < cfg.sets then SetRestAt(cfg, setNo, total) else Finished(cfg, setNo, total)
  }

  lemma WorkPhaseEnds(cfg: Config, round: int, setNo: int, total: int)
    requires 1 <= round <= cfg.rounds
    ensures var w := PhaseLen(cfg.workDuration);
            Run(cfg, WorkAt(cfg, round, setNo, total), w)
            == if round < cfg.rounds then RestAt(cfg, round, setNo, total + w)
               else SetEnd(cfg, setNo, total + w)
  {
    RunToPhaseEnd(cfg, WorkAt(cfg, round, setNo, total));
  }

  lemma RestPhaseEnds(cfg: Config, round: int, setNo: int, total: int)
    ensures var r := PhaseLen(cfg.restDuration);
            Run(cfg, RestAt(cfg, round, setNo, total), r) == WorkAt(cfg, round + 1, setNo, total + r)
  {
    RunToPhaseEnd(cfg, RestAt(cfg, round, setNo, total));
  }

  lemma SetRestPhaseEnds(cfg: Config, setNo: int, total: int)
    ensures var sr := PhaseLen(cfg.setRestDuration);
            Run(cfg, SetRestAt(cfg, setNo, total), sr) == WorkAt(cfg, 1, setNo + 1, total + sr)
  {
    RunToPhaseEnd(cfg, SetRestAt(cfg, setNo, total));
  }

  /** Ticks from the start of work in round `round` to the end of the set's last work phase. */
  function SetTicks(cfg: Config, round: int): nat
    decreases cfg.rounds - round
  {
    if round >= cfg.rounds then PhaseLen(cfg.workDuration)
    else PhaseLen(cfg.workDuration) + PhaseLen(cfg.restDuration) + SetTicks(cfg, round + 1)
  }

  /** Ticks from the start of set `setNo` to the end of the session. */
  function SessionTicksFrom(cfg: Config, setNo: int): nat
    decreases cfg.sets - setNo
  {
    if setNo >= cfg.sets then SetTicks(cfg, 1)
    else SetTicks(cfg, 1) + PhaseLen(cfg.setRestDuration) + SessionTicksFrom(cfg, setNo + 1)
  }

  function SessionTicks(cfg: Config): nat {
    SessionTicksFrom(cfg, 1)
  }

  /** A round's work followed by its rest, before the last round, leads to
      the work phase of the next round. */
  lemma RoundThenRest(cfg: Config, round: int, setNo: int, total: int)
    requires 1 <= round < cfg.rounds
    ensures var n := PhaseLen(cfg.workDuration) + PhaseLen(cfg.restDuration);
            Run(cfg, WorkAt(cfg, round, setNo, total), n) == WorkAt(cfg, round + 1, setNo, total + n)
  {
    var w := PhaseLen(cfg.workDuration);
    var r := PhaseLen(cfg.restDuration);
    var s0 := WorkAt(cfg, round, setNo, total);
    WorkPhaseEnds(cfg, round, setNo, total);
    assert Run(cfg, s0, w) == RestAt(cfg, round, setNo, total + w);
    RunAdd(cfg, s0, w, r);
    RestPhaseEnds(cfg, round, setNo, total + w);
  }

  lemma {:induction false} RunSet(cfg: Config, round: int, setNo: int, total: int)
    requires 1 <= round <= cfg.rounds
    ensures Run(cfg, WorkAt(cfg, round, setNo, total), SetTicks(cfg, round))
            == SetEnd(cfg, setNo, total + SetTicks(cfg, round))
    decreases cfg.rounds - round
  {
    var s0 := WorkAt(cfg, round, setNo, total);
    if round < cfg.rounds {
      var n := PhaseLen(cfg.workDuration) + PhaseLen(cfg.restDuration);
      var rest := SetTicks(cfg, round + 1);
      var mid := WorkAt(cfg, round + 1, setNo, total + n);
      assert SetTicks(cfg, round) == n + rest;
      assert Run(cfg, s0, n) == mid by { RoundThenRest(cfg, round, setNo, total); }
      assert Run(cfg, s0, n + rest) == Run(cfg, mid, rest) by { RunAdd(cfg, s0, n, rest); }
      assert Run(cfg, mid, rest) == SetEnd(cfg, setNo, total + n + rest) by {
        RunSet(cfg, round + 1, setNo, total + n);
      }
    } else {
      WorkPhaseEnds(cfg, round, setNo, total);
    }
  }

  /** A set that is not the last, followed by its set rest, leads to the
      first work phase of the next set. */
  lemma SetThenSetRest(cfg: Config, setNo: int, total: int)
    requires cfg.rounds >= 1 && setNo < cfg.sets
    ensures var n := SetTicks(cfg, 1) + PhaseLen(cfg.setRestDuration);
            Run(cfg, WorkAt(cfg, 1, setNo, total), n) == WorkAt(cfg, 1, setNo + 1, total + n)
  {
    var st := SetTicks(cfg, 1);
    var sr := PhaseLen(cfg.setRestDuration);
    var s0 := WorkAt(cfg, 1, setNo, total);
    RunSet(cfg, 1, setNo, total);
    assert Run(cfg, s0, st) == SetRestAt(cfg, setNo, total + st);
    RunAdd(cfg, s0, st, sr);
    SetRestPhaseEnds(cfg, setNo, total + st);
  }

  lemma {:induction false} RunSessionFrom(cfg: Config, setNo: int, total: int)
    requires cfg.rounds >= 1 && 1 <= setNo <= cfg.sets
    ensures Run(cfg, WorkAt(cfg, 1, setNo, total), SessionTicksFrom(cfg, setNo))
            == Finished(cfg, cfg.sets, total + SessionTicksFrom(cfg, setNo))
    decreases cfg.sets - setNo
  {
    var s0 := WorkAt(cfg, 1, setNo, total);
    if setNo < cfg.sets {
      var n := SetTicks(cfg, 1) + PhaseLen(cfg.setRestDuration);
      var rest := SessionTicksFrom(cfg, setNo + 1);
      var mid := WorkAt(cfg, 1, setNo + 1, total + n);
      assert SessionTicksFrom(cfg, setNo) == n + rest;
      assert Run(cfg, s0, n) == mid by { SetThenSetRest(cfg, setNo, total); }
      assert Run(cfg, s0, n + rest) == Run(cfg, mid, rest) by { RunAdd(cfg, s0, n, rest); }
      assert Run(cfg, mid, rest) == Finished(cfg, cfg.sets, total + n + rest) by {
        RunSessionFrom(cfg, setNo + 1, total + n);
      }
    } else {
      RunSet(cfg, 1, setNo, total);
    }
  }

  /** A started session completes after exactly `SessionTicks(cfg)` ticks:
      it is live at every earlier tick, and when it completes the elapsed
      total equals the number of ticks, on the last round of the last set. */
  lemma SessionCompletes(cfg: Config, s: State)
    requires cfg.rounds >= 1 && cfg.sets >= 1
    requires s.phase == Idle || s.phase == Complete
    ensures var start := Start(cfg, s).state;
            && Run(cfg, start, SessionTicks(cfg)) == Finished(cfg, cfg.sets, SessionTicks(cfg))
            && forall m :: 0 <= m < SessionTicks(cfg) ==> Live(Run(cfg, start, m))
  {
    var start := Start(cfg, s).state;
    var n := SessionTicks(cfg);
    assert start == WorkAt(cfg, 1, 1, 0);
    RunSessionFrom(cfg, 1, 0);
    forall m | 0 <= m < n
      ensures Live(Run(cfg, start, m))
    {
      RunAdd(cfg, start, m, n - m);
    }
  }

  lemma {:induction false} SetTicksClosedForm(cfg: Config, round: int)
    requires round <= cfg.rounds
    ensures SetTicks(cfg, round)
            == (cfg.rounds - round + 1) * PhaseLen(cfg.workDuration)
             + (cfg.rounds - round) * PhaseLen(cfg.restDuration)
    decreases cfg.rounds - round
  {
    if round < cfg.rounds {
      SetTicksClosedForm(cfg, round + 1);
    }
  }

  lemma {:induction false} SessionTicksFromClosedForm(cfg: Config, setNo: int)
    requires setNo <= cfg.sets
    ensures SessionTicksFrom(cfg, setNo)
            == (cfg.sets - setNo + 1) * SetTicks(cfg, 1) + (cfg.sets - setNo) * PhaseLen(cfg.setRestDuration)
    decreases cfg.sets - setNo
  {
    if setNo < cfg.sets {
      SessionTicksFromClosedForm(cfg, setNo + 1);
    }
  }

  /** The length of a session in closed form: every round's work, every rest
      between rounds of a set, every set rest between sets. */
  lemma SessionTicksClosedForm(cfg: Config)
    requires cfg.rounds >= 1 && cfg.sets >= 1
    ensures SessionTicks(cfg)
            == cfg.sets * (cfg.rounds * PhaseLen(cfg.workDuration)
                           + (cfg.rounds - 1) * PhaseLen(cfg.restDuration))
             + (cfg.sets - 1) * PhaseLen(cfg.setRestDuration)
  {
    SetTicksClosedForm(cfg, 1);
    SessionTicksFromClosedForm(cfg, 1);
  }

  /** With the default 20/10/8/1/60 plan, the 20th tick after a start ends the
      first work phase and enters rest with 10 seconds on the clock. */
  lemma DefaultTwentyTicksReachRest()
    ensures var cfg := DefaultConfig;
            var s := Run(cfg, Start(cfg, Initial(cfg)).state, 20);
            s.phase == Rest && s.timeRemaining == 10 && s.currentRound == 1 && s.totalTime == 20
  {
    var cfg := DefaultConfig;
    assert Start(cfg, Initial(cfg)).state == WorkAt(cfg, 1, 1, 0);
    WorkPhaseEnds(cfg, 1, 1, 0);
  }

  /** The default plan completes after 230 ticks (8 x 20 s of work and 7 x 10 s of rest). */
  lemma DefaultSessionLasts230()
    ensures SessionTicks(DefaultConfig) == 230
  {
    SessionTicksClosedForm(DefaultConfig);
  }

  /** Tabata (20/10, 8 rounds, 4 sets, 60 s set rest) lasts 1100 ticks; the
      set rest after round 8 of set 1 gives way, 60 ticks later, to round 1
      of set 2 with 20 seconds on the clock. */
  lemma TabataScenario(total: int)
    ensures var cfg := Config(20, 10, 8, 4, 60);
            && Run(cfg, WorkAt(cfg, 8, 1, total), 20) == SetRestAt(cfg, 1, total + 20)
            && SetRestAt(cfg, 1, total + 20).timeRemaining == 60
            && Run(cfg, SetRestAt(cfg, 1, total), 60) == WorkAt(cfg, 1, 2, total + 60)
            && WorkAt(cfg, 1, 2, total + 60).timeRemaining == 20
            && SessionTicks(cfg) == 1100
  {
    var cfg := Config(20, 10, 8, 4, 60);
    WorkPhaseEnds(cfg, 8, 1, total);
    SetRestPhaseEnds(cfg, 1, total);
    SessionTicksClosedForm(cfg);
  }

  /** With one set, the end of the last round's work completes the session:
      no rest follows, the clock shows 0 and the timer stops. */
  lemma SingleSetEndsAfterLastWork(cfg: Config, total: int)
    requires cfg.rounds >= 1 && cfg.sets == 1
    ensures var s := Run(cfg, WorkAt(cfg, cfg.rounds, 1, total), PhaseLen(cfg.workDuration));
            s.phase == Complete && !s.isRunning && s.timeRemaining == 0
  {
    WorkPhaseEnds(cfg, cfg.rounds, 1, total);
  }

  /** While paused, any number of ticks changes nothing; after resuming, one
      tick takes exactly one second off the clock. */
  lemma PauseThenResume(cfg: Config, s: State, n: nat)
    requires s.isRunning && s.timeRemaining >= 2
    ensures Run(cfg, Pause(s), n) == Pause(s)
    ensures Run(cfg, Resume(Run(cfg, Pause(s), n)), 1).timeRemaining == s.timeRemaining - 1
    ensures Run(cfg, Resume(Run(cfg, Pause(s), n)), 1).phase == s.phase
  {
  }
}

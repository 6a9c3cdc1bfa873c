/** The pure logic of the home screen: the phase label and colour, the
    `mm:ss` clock, the main play/pause button, and the settings steppers. */
module HomeScreen {
  import opened Decimal
  import opened Js
  import opened Optional
  import opened Timer
  import AppConfig

  /** The label under the clock; `完成!` is shown in the complete phase and
      in no other. */
  function PhaseText(p: Phase): (r: string)
    ensures r != ""
    ensures r == "完成!" <==> p == Complete
  {
    match p
    case Idle => "准备开始"
    case Work => "运动"
    case Rest => "休息"
    case SetRest => "组间休息"
    case Complete => "完成!"
  }

  /** The clock's colour: the rest colour for both kinds of rest, the
      success colour for a finished session and for nothing else. */
  function PhaseColor(p: Phase): (r: string)
    ensures r == AppConfig.RestColor <==> p == Rest || p == SetRest
    ensures r == AppConfig.Success <==> p == Complete
  {
    match p
    case Work => AppConfig.WorkColor
    case Rest => AppConfig.RestColor
    case SetRest => AppConfig.RestColor
    case Complete => AppConfig.Success
    case Idle => AppConfig.Primary
  }

  /** Every phase has its own label. */
  lemma PhaseTextsDistinct(p: Phase, q: Phase)
    ensures PhaseText(p) == PhaseText(q) <==> p == q
  {
  }

  /** Colours fall in three groups: rest and set rest share one; idle shows
      the primary colour, which the theme defines with the same value as the
      work colour; complete has its own. */
  lemma PhaseColorGroups(p: Phase, q: Phase)
    ensures PhaseColor(p) == PhaseColor(q) <==>
            p == q
            || (p in {Rest, SetRest} && q in {Rest, SetRest})
            || (p in {Idle, Work} && q in {Idle, Work})
  {
  }

  /** `padStart(2, '0')`. */
  function Pad2(s: string): (r: string)
    ensures |r| == if |s| >= 2 then |s| else 2
    decreases 2 - |s|
  {
    if |s| >= 2 then s else Pad2("0" + s)
  }

  /** Padding only puts zeros in front: the text is kept whole at the end. */
  lemma {:induction false} Pad2PutsZerosInFront(s: string)
    ensures Pad2(s) == seq(|Pad2(s)| - |s|, _ => '0') + s
    decreases 2 - |s|
  {
    if |s| >= 2 {
      assert s == seq(0, _ => '0') + s;
    } else {
      Pad2PutsZerosInFront("0" + s);
      var n := |Pad2(s)| - |s|;
      assert seq(n, _ => '0') == seq(n - 1, _ => '0') + "0";
    }
  }

  lemma {:induction false} Pad2OfDigits(d: string)
    requires AllDigits(d)
    ensures AllDigits(Pad2(d)) && DigitsValue(Pad2(d)) == DigitsValue(d)
    decreases 2 - |d|
  {
    if |d| < 2 {
      LeadingZeroIgnored(d);
      Pad2OfDigits("0" + d);
    }
  }

  /** A padded field of the clock: the digits of `n`, two wide below 100 and
      without a leading zero from then on. */
  lemma PaddedField(n: nat)
    ensures AllDigits(Pad2(IntToString(n))) && DigitsValue(Pad2(IntToString(n))) == n
    ensures n < 100 ==> |Pad2(IntToString(n))| == 2
    ensures n >= 100 ==> Pad2(IntToString(n))[0] != '0'
  {
    Pad2OfDigits(IntToString(n));
    NatToStringRoundTrip(n);
  }

  /** The clock text: minutes and seconds, each padded to two digits. For a
      non-negative time the minutes field is the digits of `seconds / 60`,
      two wide below 100 minutes and without a leading zero from then on. */
  function FormatClock(seconds: int): (r: string)
    ensures seconds >= 0 ==> |r| >= 5 && r[|r| - 3] == ':'
    ensures seconds >= 0 ==>
      AllDigits(r[|r| - 2..]) && DigitsValue(r[|r| - 2..]) == seconds % 60 < 60
    ensures seconds >= 0 ==>
      AllDigits(r[..|r| - 3]) && DigitsValue(r[..|r| - 3]) == seconds / 60
    ensures 0 <= seconds < 6000 ==> |r| == 5
    ensures seconds >= 6000 ==> r[0] != '0'
  {
    var mins := FloorDiv(seconds, 60);
    var secs := Rem(seconds, 60);
    var m := Pad2(IntToString(mins));
    var sec := Pad2(IntToString(secs));
    var r := m + ":" + sec;
    if seconds >= 0 then
      PaddedField(secs);
      PaddedField(mins);
      assert r[|r| - 2..] == sec;
      assert r[..|r| - 3] == m;
      assert r[0] == m[0];
      r
    else r
  }

  /** Reads a clock text back: two digit strings around the first `:`. */
  function ParseClock(text: string): Option<int> {
    var i := IndexOf(text, ':');
    if i == |text| then None
    else
      var m := text[..i];
      var sec := text[i + 1..];
      if |m| >= 1 && |sec| >= 1 && AllDigits(m) && AllDigits(sec)
      then Some(60 * DigitsValue(m) + DigitsValue(sec))
      else None
  }

  /** The clock text determines the number of seconds: minutes times 60 plus
      the seconds field gives back the input. */
  lemma FormatClockRoundTrip(seconds: int)
    requires seconds >= 0
    ensures ParseClock(FormatClock(seconds)) == Some(seconds)
  {
    var text := FormatClock(seconds);
    var m := text[..|text| - 3];
    var sec := text[|text| - 2..];
    assert text == m + ":" + sec;
    assert forall j :: 0 <= j < |m| ==> m[j] != ':' by {
      assert forall j :: 0 <= j < |m| ==> IsDigit(m[j]);
    }
    IndexOfSeparator(m, ':', sec);
  }

  /** A negative time, which a template with a negative duration puts on the
      idle clock: `Math.floor` rounds the minutes down while `%` keeps the
      sign of the seconds, so -5 seconds shows as `-1:-5`. */
  lemma FormatClockOfNegative()
    ensures FormatClock(-5) == "-1:-5"
  {
    assert FloorDiv(-5, 60) == -1;
    assert Rem(-5, 60) == -5;
    assert IntToString(-1) == "-1" && IntToString(-5) == "-5";
  }

  /** What the main button does in a given state. */
  datatype Action = StartAction | ResumeAction | PauseAction

  /** What the main button does: start a fresh or finished session, resume
      a paused one, pause a running one. */
  function MainAction(s: State): (r: Action)
    ensures r == StartAction <==> s.phase in {Idle, Complete}
    ensures r == ResumeAction ==> s.isPaused
    ensures r == PauseAction ==> !s.isPaused
  {
    if s.phase == Idle || s.phase == Complete then StartAction
    else if s.isPaused then ResumeAction
    else PauseAction
  }

  /** Pressing the main button. */
  function PressMain(cfg: Config, s: State): (r: Step)
    ensures r.state.isPaused <==> MainAction(s) == PauseAction
    ensures MainAction(s) == StartAction ==>
      r.state.phase == Work && r.state.timeRemaining == cfg.workDuration && Live(r.state)
    ensures MainAction(s) != StartAction ==>
      r.state.phase == s.phase && r.state.timeRemaining == s.timeRemaining
      && r.state.totalTime == s.totalTime && r.events == []
  {
    match MainAction(s)
    case StartAction => Start(cfg, s)
    case ResumeAction => Step(Resume(s), [])
    case PauseAction => Step(Pause(s), [])
  }

  datatype Icon = PlayIcon | PauseIcon

  /** The icon on the main button: play unless pressing it pauses. */
  function MainIcon(s: State): (r: Icon)
    ensures r == PlayIcon <==> MainAction(s) != PauseAction
  {
    if s.phase == Idle || s.phase == Complete then PlayIcon
    else if s.isPaused then PlayIcon
    else PauseIcon
  }

  /** The button shows play exactly when pressing it starts or resumes, and
      on a session that keeps the invariant, exactly when pressing it leaves
      the timer ticking. */
  lemma MainButtonIconMatchesEffect(cfg: Config, s: State)
    requires Inv(cfg, s)
    ensures MainIcon(s) == PlayIcon <==> MainAction(s) != PauseAction
    ensures MainIcon(s) == PlayIcon <==> Live(PressMain(cfg, s).state)
  {
  }

  /** The numeric fields of the configuration, by name. */
  datatype Field = WorkField | RestField | RoundsField | SetsField | SetRestField

  function Get(cfg: Config, f: Field): int {
    match f
    case WorkField => cfg.workDuration
    case RestField => cfg.restDuration
    case RoundsField => cfg.rounds
    case SetsField => cfg.sets
    case SetRestField => cfg.setRestDuration
  }

  function With(cfg: Config, f: Field, v: int): (r: Config)
    ensures Get(r, f) == v
    ensures forall g :: g != f ==> Get(r, g) == Get(cfg, g)
  {
    match f
    case WorkField => cfg.(workDuration := v)
    case RestField => cfg.(restDuration := v)
    case RoundsField => cfg.(rounds := v)
    case SetsField => cfg.(sets := v)
    case SetRestField => cfg.(setRestDuration := v)
  }

  lemma ConfigByFields(a: Config, b: Config)
    requires forall f :: Get(a, f) == Get(b, f)
    ensures a == b
  {
    assert Get(a, WorkField) == Get(b, WorkField);
    assert Get(a, RestField) == Get(b, RestField);
    assert Get(a, RoundsField) == Get(b, RoundsField);
    assert Get(a, SetsField) == Get(b, SetsField);
    assert Get(a, SetRestField) == Get(b, SetRestField);
  }

  function Max(a: int, b: int): int {
    if a >= b then a else b
  }

  function Min(a: int, b: int): int {
    if a <= b then a else b
  }

  /** `adjustValue`: step one field and clamp it with `Math.max(min, Math.min(max, v))`. */
  function AdjustValue(cfg: Config, key: Field, delta: int, lo: int, hi: int): (r: Config)
    ensures lo <= hi ==> lo <= Get(r, key) <= hi
    ensures lo <= Get(cfg, key) + delta <= hi ==> Get(r, key) == Get(cfg, key) + delta
    ensures Get(cfg, key) + delta < lo ==> Get(r, key) == lo
    ensures Get(cfg, key) + delta > hi ==> Get(r, key) == Max(lo, hi)
    ensures forall f :: f != key ==> Get(r, f) == Get(cfg, f)
  {
    With(cfg, key, Max(lo, Min(hi, Get(cfg, key) + delta)))
  }

  /** One row of the settings sheet: a field, its step and its bounds. */
  datatype Stepper = Stepper(field: Field, step: int, lo: int, hi: int)

  const Steppers: seq<Stepper> := [
    Stepper(WorkField, 5, 5, 120),
    Stepper(RestField, 5, 5, 60),
    Stepper(RoundsField, 1, 1, 20),
    Stepper(SetsField, 1, 1, 10)
  ]

  /** Each stepper has a non-empty range, and no two steppers edit the same field. */
  lemma SteppersWellFormed()
    ensures forall row :: 0 <= row < |Steppers| ==> Steppers[row].lo <= Steppers[row].hi
    ensures forall i, j :: 0 <= i < |Steppers| && 0 <= j < |Steppers| && i != j ==>
              Steppers[i].field != Steppers[j].field
  {
  }

  /** A press of the minus or plus button of stepper `row`. */
  datatype Press = Minus(row: nat) | Plus(row: nat)

  predicate ValidPress(p: Press) {
    p.row < |Steppers|
  }

  function PressButton(cfg: Config, p: Press): Config
    requires ValidPress(p)
  {
    var st := Steppers[p.row];
    AdjustValue(cfg, st.field, if p.Minus? then -st.step else st.step, st.lo, st.hi)
  }

  /** A sequence of presses, oldest first. */
  function PressAll(cfg: Config, ps: seq<Press>): Config
    requires forall k :: 0 <= k < |ps| ==> ValidPress(ps[k])
  {
    if |ps| == 0 then cfg else PressButton(PressAll(cfg, ps[..|ps| - 1]), ps[|ps| - 1])
  }

  predicate RowInBounds(cfg: Config, row: nat)
    requires row < |Steppers|
  {
    Steppers[row].lo <= Get(cfg, Steppers[row].field) <= Steppers[row].hi
  }

  predicate Pressed(ps: seq<Press>, row: nat) {
    exists k :: 0 <= k < |ps| && ps[k].row == row
  }

  /** After any presses, every field whose stepper was pressed lies within
      that stepper's bounds, and the set rest, which has no stepper, is
      unchanged. */
  lemma {:induction false} PressesKeepBounds(cfg: Config, ps: seq<Press>)
    requires forall k :: 0 <= k < |ps| ==> ValidPress(ps[k])
    ensures forall row :: 0 <= row < |Steppers| && Pressed(ps, row) ==> RowInBounds(PressAll(cfg, ps), row)
    ensures PressAll(cfg, ps).setRestDuration == cfg.setRestDuration
  {
    if |ps| > 0 {
      SteppersWellFormed();
      var init := ps[..|ps| - 1];
      var last := ps[|ps| - 1];
      PressesKeepBounds(cfg, init);
      forall row | 0 <= row < |Steppers| && Pressed(ps, row)
        ensures RowInBounds(PressAll(cfg, ps), row)
      {
        var prev := PressAll(cfg, init);
        var st := Steppers[last.row];
        assert PressAll(cfg, ps) == PressButton(prev, last);
        if last.row != row {
          var k :| 0 <= k < |ps| && ps[k].row == row;
          assert k < |init| && init[k].row == row;
          assert Pressed(init, row);
          assert RowInBounds(prev, row);
          assert st.field != Steppers[row].field;
        }
      }
      assert Get(PressAll(cfg, ps), SetRestField) == Get(PressAll(cfg, init), SetRestField);
    }
  }

  /** Pressing minus at a stepper's lower bound, or plus at its upper bound,
      changes nothing. */
  lemma PressAtBoundIsIdempotent(cfg: Config, row: nat)
    requires row < |Steppers|
    ensures Get(cfg, Steppers[row].field) == Steppers[row].lo ==> PressButton(cfg, Minus(row)) == cfg
    ensures Get(cfg, Steppers[row].field) == Steppers[row].hi ==> PressButton(cfg, Plus(row)) == cfg
  {
    var st := Steppers[row];
    if Get(cfg, st.field) == st.lo {
      ConfigByFields(PressButton(cfg, Minus(row)), cfg);
    }
    if Get(cfg, st.field) == st.hi {
      ConfigByFields(PressButton(cfg, Plus(row)), cfg);
    }
  }

  /** `applySettings`: the edited configuration replaces the hook's, and the
      session resets. The reset callback still holds the previous
      configuration, so it shows the previous work duration; the idle
      re-sync effect then shows the new one. */
  function ApplySettings(current: Config, edited: Config, s: State): (r: (Config, State))
    ensures r.0 == edited
    ensures r.1 == Reset(edited, s)
  {
    var cfg := UpdateConfig(current, FullPatch(edited));
    var s' := Reset(current, s);
    (cfg, IdleSync(cfg, s'))
  }
}

/** The pure logic of the history screen: the `分/秒` duration text and the
    completion badge of a record. */
module HistoryScreen {
  import opened Decimal
  import opened Js
  import opened Optional

  /** A duration as whole minutes, `分`, the remaining seconds, `秒`; neither
      number is padded. */
  function FormatDuration(seconds: int): (r: string)
    ensures seconds >= 0 ==> |r| >= 4 && r[|r| - 1] == '秒'
    ensures seconds >= 0 ==> IndexOf(r, '分') < |r| - 1
    ensures seconds >= 0 ==>
      var sec := r[IndexOf(r, '分') + 1..|r| - 1];
      1 <= |sec| <= 2 && AllDigits(sec) && DigitsValue(sec) < 60
  {
    var m := IntToString(FloorDiv(seconds, 60));
    var sec := IntToString(Rem(seconds, 60));
    var r := m + "分" + sec + "秒";
    if seconds >= 0 then
      DigitsHaveNoUnit(m);
      IndexOfSeparator(m, '分', sec + "秒");
      assert m + "分" + sec + "秒" == m + ['分'] + (sec + "秒");
      assert r[|m| + 1..|r| - 1] == sec;
      NatToStringRoundTrip(seconds % 60);
      r
    else r
  }

  /** A digit string never holds the minute sign. */
  lemma DigitsHaveNoUnit(ds: string)
    requires AllDigits(ds)
    ensures forall j :: 0 <= j < |ds| ==> ds[j] != '分'
  {
  }

  /** Reads a duration text back: a digit string before the first `分`, and a
      digit string between it and a final `秒`. */
  function ParseDuration(text: string): Option<int> {
    var i := IndexOf(text, '分');
    if i == |text| || text[|text| - 1] != '秒' || i + 1 > |text| - 1 then None
    else ParseParts(text[..i], text[i + 1..|text| - 1])
  }

  /** The value of a minutes and a seconds digit string, when both are
      non-empty digit strings. */
  function ParseParts(m: string, sec: string): Option<int> {
    if |m| >= 1 && |sec| >= 1 && AllDigits(m) && AllDigits(sec)
    then Some(60 * DigitsValue(m) + DigitsValue(sec))
    else None
  }

  /** Where the parts of a joined duration text sit. */
  lemma JoinedSlices(m: string, sec: string)
    ensures var text := m + "分" + sec + "秒";
      |text| == |m| + |sec| + 2 && text[|m|] == '分' && text[|text| - 1] == '秒'
      && text[..|m|] == m && text[|m| + 1..|text| - 1] == sec
  {
  }

  /** The first minute sign of a joined text is the one after the minutes. */
  lemma JoinedIndex(m: string, sec: string)
    requires AllDigits(m)
    ensures IndexOf(m + "分" + sec + "秒", '分') == |m|
  {
    assert m + "分" + sec + "秒" == m + ['分'] + (sec + "秒");
    DigitsHaveNoUnit(m);
    IndexOfSeparator(m, '分', sec + "秒");
  }

  /** A minutes digit string and any seconds text joined with the two units
      split back into the two. */
  lemma ParseJoined(m: string, sec: string)
    requires AllDigits(m)
    ensures ParseDuration(m + "分" + sec + "秒") == ParseParts(m, sec)
  {
    JoinedSlices(m, sec);
    JoinedIndex(m, sec);
  }

  /** For a non-negative time the text is the decimal minutes, `分`, the
      decimal seconds below 60, and `秒`. */
  lemma FormatDurationOfNat(seconds: int)
    requires seconds >= 0
    ensures FormatDuration(seconds) == NatToString(seconds / 60) + "分" + NatToString(seconds % 60) + "秒"
  {
    assert FloorDiv(seconds, 60) == seconds / 60;
    assert Rem(seconds, 60) == seconds % 60;
  }

  /** Two decimal numerals read back as minutes and seconds. */
  lemma ParsePartsOfNat(mins: nat, secs: nat)
    ensures ParseParts(NatToString(mins), NatToString(secs)) == Some(60 * mins + secs)
  {
    NatToStringRoundTrip(mins);
    NatToStringRoundTrip(secs);
  }

  /** For a non-negative duration the minutes times 60 plus the seconds
      give back the input. */
  lemma FormatDurationRoundTrip(seconds: int)
    requires seconds >= 0
    ensures ParseDuration(FormatDuration(seconds)) == Some(seconds)
  {
    var m := NatToString(seconds / 60);
    var sec := NatToString(seconds % 60);
    FormatDurationOfNat(seconds);
    ParseJoined(m, sec);
    ParsePartsOfNat(seconds / 60, seconds % 60);
  }

  /** The badge of a history entry. */
  datatype Badge = Done | NotDone

  /** The badge of a history entry: done exactly when every planned round
      was finished. */
  function BadgeFor(completedRounds: int, rounds: int): (r: Badge)
    ensures r == Done <==> completedRounds == rounds
  {
    if completedRounds == rounds then Done else NotDone
  }

  function BadgeText(b: Badge): (r: string)
    ensures r == "完成" <==> b == Done
    ensures r == "未完成" <==> b == NotDone
  {
    match b
    case Done => "完成"
    case NotDone => "未完成"
  }

  /** The entry reads `完成` exactly when every planned round was finished,
      and `未完成` exactly when one was not. */
  lemma BadgeTextMeansCompleted(completedRounds: int, rounds: int)
    ensures BadgeText(BadgeFor(completedRounds, rounds)) == "完成" <==> completedRounds == rounds
    ensures BadgeText(BadgeFor(completedRounds, rounds)) == "未完成" <==> completedRounds != rounds
  {
  }
}

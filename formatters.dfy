/**
 * The list item's two clock formatters: `formatDuration` for a recording's
 * length (`Long` milliseconds, `%02d:%02d`) and `formatPlaybackTime` for the
 * player position (`Int` milliseconds, `%d:%02d`). Division and remainder
 * are the JVM's, truncating toward zero.
 */
module RecordingItem {
  import opened Util
  import opened Decimal

  /** Whole seconds in `milliseconds`, split into minutes and leftover seconds. */
  function ClockFields(milliseconds: int): (r: (int, int)) {
    var seconds := TDiv(milliseconds, 1000);
    (TDiv(seconds, 60), TMod(seconds, 60))
  }

  function FormatDuration(milliseconds: int): (s: string)
    ensures |s| >= 5
  {
    var (minutes, remainingSeconds) := ClockFields(milliseconds);
    FormatInt(minutes, 2) + ":" + FormatInt(remainingSeconds, 2)
  }

  function FormatPlaybackTime(milliseconds: int): (s: string)
    ensures |s| >= 4
  {
    var (minutes, remainingSeconds) := ClockFields(milliseconds);
    FormatInt(minutes, 0) + ":" + FormatInt(remainingSeconds, 2)
  }

  /**
   * Reads "M:SS" back: the text before the colon three from the end, and
   * the two characters after it, as `Long` values.
   */
  function ReadClock(s: string): (r: Option<(int, int)>)
    ensures r.Some? ==> |s| >= 4 && s[|s| - 3] == ':'
  {
    if |s| < 4 || s[|s| - 3] != ':' then None
    else
      match (ToLong(s[..|s| - 3]), ToLong(s[|s| - 2..]))
      case (Some(m), Some(sec)) => Some((m, sec))
      case _ => None
  }

  /**
   * For a non-negative duration the seconds field lies in 0..59, the
   * minutes are not wrapped into hours, and together they give back the
   * whole seconds; the sub-second remainder is dropped.
   */
  lemma ClockFieldsMeaning(milliseconds: int)
    requires milliseconds >= 0
    ensures var (minutes, seconds) := ClockFields(milliseconds);
      && 0 <= seconds < 60 && minutes >= 0
      && minutes * 60 + seconds == milliseconds / 1000
      && (minutes * 60 + seconds) * 1000 <= milliseconds < (minutes * 60 + seconds + 1) * 1000
  {
  }

  /** For a negative duration both fields truncate toward zero and take the sign of the input. */
  lemma ClockFieldsNegative(milliseconds: int)
    requires milliseconds < 0
    ensures var (minutes, seconds) := ClockFields(milliseconds);
      && -60 < seconds <= 0 && minutes <= 0
      && minutes * 60 + seconds == -((-milliseconds) / 1000)
  {
  }

  /** Every instant within the same whole second formats identically. */
  lemma SubSecondIgnored(k: nat, r: nat)
    requires r < 1000
    ensures FormatDuration(1000 * k + r) == FormatDuration(1000 * k)
    ensures FormatPlaybackTime(1000 * k + r) == FormatPlaybackTime(1000 * k)
  {
    assert (1000 * k + r) / 1000 == k;
  }

  /**
   * The duration text reads back as its two fields: padded minutes, a colon
   * and exactly two digits of seconds. Below 100 minutes it is five
   * characters long.
   */
  lemma {:induction false} DurationReadsBack(milliseconds: int)
    requires 0 <= milliseconds <= LongMax
    ensures ReadClock(FormatDuration(milliseconds)) == Some(ClockFields(milliseconds))
    ensures ClockFields(milliseconds).0 < 100 ==> |FormatDuration(milliseconds)| == 5
  {
    var (minutes, seconds) := ClockFields(milliseconds);
    ClockFieldsMeaning(milliseconds);
    var m, sec := FormatInt(minutes, 2), FormatInt(seconds, 2);
    TwoDigitWidth(seconds);
    var s := FormatDuration(milliseconds);
    assert s == m + ":" + sec;
    assert s[..|s| - 3] == m && s[|s| - 2..] == sec && s[|s| - 3] == ':';
    ParsePaddedRoundTrip(minutes, 2, LongMin, LongMax);
    ParsePaddedRoundTrip(seconds, 2, LongMin, LongMax);
    if minutes < 100 {
      TwoDigitWidth(minutes);
    }
  }

  /** The playback text reads back the same way; its minutes carry no padding. */
  lemma {:induction false} PlaybackTimeReadsBack(milliseconds: int)
    requires 0 <= milliseconds <= IntMax
    ensures ReadClock(FormatPlaybackTime(milliseconds)) == Some(ClockFields(milliseconds))
    ensures ClockFields(milliseconds).0 < 10 ==> |FormatPlaybackTime(milliseconds)| == 4
  {
    var (minutes, seconds) := ClockFields(milliseconds);
    ClockFieldsMeaning(milliseconds);
    var m, sec := FormatInt(minutes, 0), FormatInt(seconds, 2);
    TwoDigitWidth(seconds);
    var s := FormatPlaybackTime(milliseconds);
    assert s == m + ":" + sec;
    assert s[..|s| - 3] == m && s[|s| - 2..] == sec && s[|s| - 3] == ':';
    ParsePaddedRoundTrip(minutes, 0, LongMin, LongMax);
    ParsePaddedRoundTrip(seconds, 2, LongMin, LongMax);
  }

  /** Under ten minutes the two formats differ only by the leading zero of the minutes. */
  lemma PaddingIsTheOnlyDifference(milliseconds: int)
    requires 0 <= milliseconds < 600_000
    ensures FormatDuration(milliseconds) == "0" + FormatPlaybackTime(milliseconds)
  {
    var (minutes, seconds) := ClockFields(milliseconds);
    ClockFieldsMeaning(milliseconds);
    assert FormatInt(minutes, 2) == "0" + FormatInt(minutes, 0);
  }
}

/** The recording screen's own `formatDuration`, used for the live timer. */
module AudioRecordingScreen {
  import opened Decimal
  import RecordingItem

  function FormatDuration(milliseconds: int): (s: string)
    ensures s == RecordingItem.FormatDuration(milliseconds)
  {
    var seconds := TDiv(milliseconds, 1000);
    var minutes := TDiv(seconds, 60);
    var remainingSeconds := TMod(seconds, 60);
    FormatInt(minutes, 2) + ":" + FormatInt(remainingSeconds, 2)
  }
}

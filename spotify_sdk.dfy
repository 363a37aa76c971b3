/**
 * `formatTime` from the web player composable
 * (frontend/src/composables/useSpotifySDK.ts): a playback position in
 * milliseconds shown as minutes, a colon and two-digit seconds.
 */
module SpotifySdk {
  import opened Text

  const MillisPerSecond := 1000
  const MillisPerMinute := 1000 * 60
  const MillisPerHour := 1000 * 60 * 60

  /** `Math.floor((ms / (1000 * 60)) % 60)`: the minutes within the hour. */
  function Minutes(ms: nat): (m: nat)
    ensures m < 60
  {
    (ms / MillisPerMinute) % 60
  }

  /** `Math.floor((ms / 1000) % 60)`: the seconds within the minute. */
  function Seconds(ms: nat): (s: nat)
    ensures s < 60
  {
    (ms / MillisPerSecond) % 60
  }

  /** `seconds.toString().padStart(2, '0')`: always two digits, read back as `s`. */
  function TwoDigits(s: nat): (r: string)
    requires s < 60
    ensures |r| == 2 && IsDigit(r[0]) && IsDigit(r[1])
    ensures DecimalValue(r) == s
  {
    PaddedValue(s);
    PadStart(DecimalString(s), 2, '0')
  }

  /**
   * `formatTime(ms)` for a whole, non-negative number of milliseconds:
   * the minutes within the hour unpadded, then the seconds within the
   * minute padded to two digits. Whole hours are dropped.
   */
  function FormatTime(ms: nat): (r: string)
    ensures 4 <= |r| <= 5
    ensures r[|r| - 3] == ':'
    ensures |r| == 5 ==> r[0] != '0'
  {
    DecimalString(Minutes(ms)) + ":" + TwoDigits(Seconds(ms))
  }

  /** The minutes field of a formatted time: everything before the colon. */
  function MinutesField(r: string): string
    requires |r| >= 3
  {
    r[..|r| - 3]
  }

  /** The seconds field of a formatted time: the two characters after the colon. */
  function SecondsField(r: string): string
    requires |r| >= 3
  {
    r[|r| - 2..]
  }

  lemma SplitSeconds(s: nat)
    ensures (s / 60) % 60 * 60 + s % 60 == s % 3600
  {
    var h := s / 3600;
    var rest := s % 3600;
    assert s == h * 3600 + rest;
    assert s / 60 == h * 60 + rest / 60;
    assert (s / 60) % 60 == rest / 60;
    assert s % 60 == rest % 60;
  }

  lemma MinutesFromSeconds(ms: nat)
    ensures ms / MillisPerMinute == (ms / MillisPerSecond) / 60
  {
    var s := ms / 1000;
    assert ms == s * 1000 + ms % 1000;
    var m := s / 60;
    assert s == m * 60 + s % 60;
    assert ms == m * 60000 + (s % 60) * 1000 + ms % 1000;
  }

  lemma OneDigit(n: nat)
    requires n < 10
    ensures DecimalString(n) == [DigitChar(n)]
  {
  }

  /** A leading zero does not change the value of a digit. */
  lemma LeadingZeroValue(c: char)
    requires IsDigit(c)
    ensures DecimalValue(['0', c]) == DigitValue(c)
  {
    assert ['0', c][..1] == ['0'];
    assert ['0'][..0] == [];
  }

  /** A number below sixty padded to two places still reads as that number. */
  lemma PaddedValue(n: nat)
    requires n < 60
    ensures var p := PadStart(DecimalString(n), 2, '0');
      |p| == 2 && IsDigit(p[0]) && IsDigit(p[1]) && DecimalValue(p) == n
  {
    var p := PadStart(DecimalString(n), 2, '0');
    if n < 10 {
      OneDigit(n);
      assert p == ['0', DigitChar(n)];
      LeadingZeroValue(DigitChar(n));
      DigitRoundTrip(n);
    } else {
      assert p == DecimalString(n);
      DecimalRoundTrip(n);
    }
  }

  lemma FormatTimeFields(ms: nat)
    ensures MinutesField(FormatTime(ms)) == DecimalString(Minutes(ms))
    ensures SecondsField(FormatTime(ms)) == TwoDigits(Seconds(ms))
  {
    var m := DecimalString(Minutes(ms));
    var p := TwoDigits(Seconds(ms));
    assert FormatTime(ms) == m + ":" + p;
  }

  /**
   * Reading the two fields back gives the minutes and seconds within the
   * hour, and together the whole seconds elapsed since the last full hour.
   */
  lemma FormatTimeReadsBack(ms: nat)
    ensures var r := FormatTime(ms);
      && AllDigits(MinutesField(r))
      && AllDigits(SecondsField(r)) && |SecondsField(r)| == 2
      && DecimalValue(MinutesField(r)) == (ms / MillisPerMinute) % 60
      && DecimalValue(SecondsField(r)) == (ms / MillisPerSecond) % 60
      && DecimalValue(MinutesField(r)) * 60 + DecimalValue(SecondsField(r)) == (ms / MillisPerSecond) % 3600
  {
    var r := FormatTime(ms);
    FormatTimeFields(ms);
    assert DecimalValue(MinutesField(r)) == Minutes(ms) by {
      DecimalRoundTrip(Minutes(ms));
    }
    assert DecimalValue(SecondsField(r)) == Seconds(ms);
    assert Minutes(ms) * 60 + Seconds(ms) == (ms / MillisPerSecond) % 3600 by {
      MinutesFromSeconds(ms);
      SplitSeconds(ms / MillisPerSecond);
    }
  }

  /** Adding a whole hour does not change the display. */
  lemma FormatTimeDropsHours(ms: nat)
    ensures FormatTime(ms + MillisPerHour) == FormatTime(ms)
  {
    assert Seconds(ms + MillisPerHour) == Seconds(ms) by {
      assert (ms + MillisPerHour) / MillisPerSecond == ms / MillisPerSecond + 3600;
    }
    assert Minutes(ms + MillisPerHour) == Minutes(ms) by {
      assert (ms + MillisPerHour) / MillisPerMinute == ms / MillisPerMinute + 60;
    }
  }
}

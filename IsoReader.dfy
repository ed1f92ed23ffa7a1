/** A reader for exactly the two ISO 8601 forms the encoder writes:
    `YYYY-MM-DD`, and `YYYY-MM-DDTHH:MM:SS[.ffffff]` followed by a `+HH:MM` or
    `-HH:MM` offset. arrow's parser accepts far more; on these forms it gives
    the same values, and this reader shows that the assumption `ReadsIsoForms`
    the round-trip lemmas make of arrow can be met. Other text, and fields out
    of range, raise `ParserError`. */
module IsoReader {
  import opened Basics
  import opened Temporal
  import opened Wrappers

  /** `s[lo..hi]` exists and is all ASCII digits. */
  predicate DigitsIn(s: string, lo: int, hi: int) {
    0 <= lo <= hi <= |s| && AllDigits(s[lo..hi])
  }

  function Number(s: string, lo: int, hi: int): nat
    requires DigitsIn(s, lo, hi)
  {
    DigitsValue(s[lo..hi])
  }

  /** `YYYY-MM-DD`. */
  predicate DateText(s: string) {
    |s| == 10 && DigitsIn(s, 0, 4) && s[4] == '-' && DigitsIn(s, 5, 7) && s[7] == '-' && DigitsIn(s, 8, 10)
  }

  function ReadDate(s: string): Date
    requires DateText(s)
  {
    Date(Number(s, 0, 4), Number(s, 5, 7), Number(s, 8, 10))
  }

  /** `HH:MM:SS`. */
  predicate ClockText(s: string) {
    |s| == 8 && DigitsIn(s, 0, 2) && s[2] == ':' && DigitsIn(s, 3, 5) && s[5] == ':' && DigitsIn(s, 6, 8)
  }

  /** Nothing, or `.ffffff`. */
  predicate FractionText(s: string) {
    s == [] || (|s| == 7 && s[0] == '.' && DigitsIn(s, 1, 7))
  }

  function ReadFraction(s: string): nat
    requires FractionText(s)
  {
    if s == [] then 0 else Number(s, 1, 7)
  }

  /** `+HH:MM` or `-HH:MM`. */
  predicate OffsetText(s: string) {
    |s| == 6 && (s[0] == '+' || s[0] == '-') && DigitsIn(s, 1, 3) && s[3] == ':' && DigitsIn(s, 4, 6)
  }

  function ReadOffset(s: string): int
    requires OffsetText(s)
  {
    var magnitude := Number(s, 1, 3) * 60 + Number(s, 4, 6);
    if s[0] == '-' then -magnitude else magnitude
  }

  function ParseIso(s: string): (r: ParseOutcome)
    ensures !r.Raised?
    ensures r.Parsed? ==> |s| == 10 || |s| == 25 || |s| == 32
    ensures r.Parsed? ==> r.value.offset.Some? && DateText(s[..10]) && r.value.date == ReadDate(s[..10])
  {
    if |s| == 10 && DateText(s) then
      var d := ReadDate(s);
      assert s[..10] == s;
      if ValidDate(d) then Parsed(Midnight(d)) else ParserError
    else if |s| == 25 || |s| == 32 then
      var date, clock, fraction, offset := s[..10], s[11..19], s[19..|s| - 6], s[|s| - 6..];
      if DateText(date) && s[10] == 'T' && ClockText(clock) && FractionText(fraction) && OffsetText(offset) then
        var t := DateTime(ReadDate(date), Number(clock, 0, 2), Number(clock, 3, 5), Number(clock, 6, 8),
                          ReadFraction(fraction), Some(ReadOffset(offset)));
        if ValidDateTime(t) then Parsed(t) else ParserError
      else ParserError
    else ParserError
  }

  lemma ReadsDateText(d: PyDate)
    ensures DateText(FormatDate(d)) && ReadDate(FormatDate(d)) == d
  {
    var s := FormatDate(d);
    assert s[0..4] == Pad(d.year, 4);
    assert s[5..7] == Pad(d.month, 2);
    assert s[8..10] == Pad(d.day, 2);
    assert Pow10(4) == 10000 && Pow10(2) == 100;
    PadRoundTrip(d.year, 4);
    PadRoundTrip(d.month, 2);
    PadRoundTrip(d.day, 2);
  }

  lemma ReadsClockText(h: nat, m: nat, sec: nat)
    requires h < 24 && m < 60 && sec < 60
    ensures ClockText(FormatClock(h, m, sec))
    ensures Number(FormatClock(h, m, sec), 0, 2) == h
    ensures Number(FormatClock(h, m, sec), 3, 5) == m
    ensures Number(FormatClock(h, m, sec), 6, 8) == sec
  {
    var s := FormatClock(h, m, sec);
    assert s[0..2] == Pad(h, 2);
    assert s[3..5] == Pad(m, 2);
    assert s[6..8] == Pad(sec, 2);
    assert Pow10(2) == 100;
    PadRoundTrip(h, 2);
    PadRoundTrip(m, 2);
    PadRoundTrip(sec, 2);
  }

  lemma ReadsFractionText(micro: nat)
    requires micro < 1000000
    ensures FractionText(FormatFraction(micro)) && ReadFraction(FormatFraction(micro)) == micro
  {
    if micro != 0 {
      var s := FormatFraction(micro);
      assert s[1..7] == Pad(micro, 6);
      assert Pow10(6) == 1000000;
      PadRoundTrip(micro, 6);
    }
  }

  lemma ReadsOffsetText(m: int)
    requires -MinutesPerDay < m < MinutesPerDay
    ensures OffsetText(FormatOffset(m)) && ReadOffset(FormatOffset(m)) == m
  {
    var s := FormatOffset(m);
    var a := if m < 0 then -m else m;
    assert s[1..3] == Pad(a / 60, 2);
    assert s[4..6] == Pad(a % 60, 2);
    assert Pow10(2) == 100;
    PadRoundTrip(a / 60, 2);
    PadRoundTrip(a % 60, 2);
  }

  lemma ReadsFormattedDate(d: PyDate)
    ensures ParseIso(FormatDate(d)) == Parsed(Midnight(d))
  {
    ReadsDateText(d);
  }

  lemma ReadsFormattedDateTime(t: PyDateTime)
    requires t.offset.Some?
    ensures ParseIso(IsoFormat(t, 'T')) == Parsed(t)
  {
    var date, clock := FormatDate(t.date), FormatClock(t.hour, t.minute, t.second);
    var fraction, offset := FormatFraction(t.microsecond), FormatOffset(t.offset.value);
    var s := IsoFormat(t, 'T');
    assert s == date + ['T'] + clock + fraction + offset;
    assert s[..10] == date;
    assert s[11..19] == clock;
    assert s[19..|s| - 6] == fraction;
    assert s[|s| - 6..] == offset;
    ReadsDateText(t.date);
    ReadsClockText(t.hour, t.minute, t.second);
    ReadsFractionText(t.microsecond);
    ReadsOffsetText(t.offset.value);
  }

  /** This reader meets the assumption the round-trip lemmas make of arrow. */
  lemma ParseIsoReadsIsoForms()
    ensures ReadsIsoForms(ParseIso)
  {
    forall d: PyDate ensures ParseIso(FormatDate(d)) == Parsed(Midnight(d)) {
      ReadsFormattedDate(d);
    }
    forall t: PyDateTime | t.offset.Some? ensures ParseIso(IsoFormat(t, 'T')) == Parsed(t) {
      ReadsFormattedDateTime(t);
    }
  }
}

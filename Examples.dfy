/** The examples in the docstrings of jsonext/mixins.py, worked through the
    model. Each object is described by the capabilities the encoder probes. */
module Examples {
  import opened Basics
  import opened Temporal
  import opened PyObjects
  import opened Mixins
  import opened Wrappers
  import opened IsoReader
  import opened Jsonext

  /** `datetime(2013, 11, 17, 12, 0, 0)`, a naive value. */
  const Release: PyDateTime := DateTime(Date(2013, 11, 17), 12, 0, 0, 0, None)

  /** The zero-padded fields of the release date and time. */
  lemma ReleaseFields()
    ensures Pad(2013, 4) == "2013" && Pad(11, 2) == "11" && Pad(17, 2) == "17"
    ensures Pad(12, 2) == "12" && Pad(0, 2) == "00"
  {
    assert Pad(2, 1) == "2" && Pad(20, 2) == "20" && Pad(201, 3) == "201";
    assert Pad(1, 1) == "1" && Pad(0, 1) == "0";
  }

  lemma ReleaseDateText()
    ensures FormatDate(Release.date) == "2013-11-17"
  {
    ReleaseFields();
  }

  /** The release time in UTC: the same fields with offset +00:00. */
  const ReleaseUtc: PyDateTime := DateTime(Date(2013, 11, 17), 12, 0, 0, 0, Some(0))

  lemma ReleaseToUtc()
    ensures ToUtc(Release) == Ok(ReleaseUtc)
  {
  }

  lemma ReleaseUtcText()
    ensures IsoFormat(ReleaseUtc, 'T') == "2013-11-17T12:00:00+00:00"
  {
    ReleaseFields();
    ReleaseDateText();
    assert FormatClock(12, 0, 0) == "12:00:00";
    assert FormatOffset(0) == "+00:00";
  }

  /** A naive datetime is read as UTC: `"2013-11-17T12:00:00+00:00"`. */
  lemma DumpsReleaseDateTime()
    ensures Dumps(PyObject(DateTimeObject(Release))) == Ok(JString("2013-11-17T12:00:00+00:00"))
  {
    ReleaseToUtc();
    ReleaseUtcText();
    DumpsDateTime(DateTimeObject(Release));
  }

  /** `dt.date()` is written as `"2013-11-17"`. */
  lemma DumpsReleaseDate()
    ensures Dumps(PyObject(DateObject(Release.date))) == Ok(JString("2013-11-17"))
  {
    ReleaseDateText();
    DumpsDate(DateObject(Release.date));
  }

  /** The values `(i**2 for i in range(10))` yields. */
  const SquareNumbers: seq<int> := [0, 1, 4, 9, 16, 25, 36, 49, 64, 81]

  /** A generator: iterable, with no `to_dict`; its `__str__` is the default repr. */
  function Generator(elements: seq<PyValue>): (o: Obj)
    ensures !IsDate(o) && o.iteration == Iterable(elements)
  {
    Obj("generator", Plain, Iterable(elements), None, Some("<generator object>"))
  }

  /** `(i**2 for i in range(10))` is written as `[0, 1, 4, 9, 16, 25, 36, 49, 64, 81]`. */
  lemma DumpsSquares()
    ensures Dumps(PyObject(Generator(seq(10, i requires 0 <= i < 10 => PyInt(SquareNumbers[i]))))) ==
      Ok(JArray(seq(10, i requires 0 <= i < 10 => JInt(SquareNumbers[i]))))
  {
    var items := seq(10, i requires 0 <= i < 10 => PyInt(SquareNumbers[i]));
    DumpsIterable(Generator(items));
    EncodesInts(items);
    assert seq(|items|, i requires 0 <= i < |items| => JInt(items[i].i))
        == seq(10, i requires 0 <= i < 10 => JInt(SquareNumbers[i]));
  }

  /** A list of ints is written as the array of the same ints. */
  lemma EncodesInts(items: seq<PyValue>)
    requires forall i :: 0 <= i < |items| ==> items[i].PyInt?
    ensures Encode(PyList(items)) == Ok(JArray(seq(|items|, i requires 0 <= i < |items| => JInt(items[i].i))))
  {
    assert forall i :: 0 <= i < |items| ==> Encode(items[i]) == Ok(JInt(items[i].i));
    var js := EncodeItems(items).value;
    assert js == seq(|items|, i requires 0 <= i < |items| => JInt(items[i].i));
  }

  /** `Foo(a, b)`, whose `to_dict()` returns `{'A': a, 'B': b}`. */
  function Foo(a: int, b: int): Obj {
    Obj("Foo", Plain, NotIterable,
        Some(PyDict([Entry("A", PyInt(a)), Entry("B", PyInt(b))])), Some("<Foo object>"))
  }

  lemma DumpsFoo(a: int, b: int)
    ensures Dumps(PyObject(Foo(a, b))) == Ok(JObject([Member("A", JInt(a)), Member("B", JInt(b))]))
  {
    DumpsToDict(Foo(a, b));
    var entries := Foo(a, b).toDict.value.entries;
    assert Encode(entries[0].value) == Ok(JInt(a)) && Encode(entries[1].value) == Ok(JInt(b));
    var ms := EncodeEntries(entries).value;
    assert ms == [Member("A", JInt(a)), Member("B", JInt(b))];
  }

  /** `[Foo(1, 2), Foo(3, 4)]` is written as `[{"A": 1, "B": 2}, {"A": 3, "B": 4}]`. */
  lemma DumpsFooList()
    ensures Dumps(PyList([PyObject(Foo(1, 2)), PyObject(Foo(3, 4))])) ==
      Ok(JArray([JObject([Member("A", JInt(1)), Member("B", JInt(2))]),
                 JObject([Member("A", JInt(3)), Member("B", JInt(4))])]))
  {
    DumpsFoo(1, 2);
    DumpsFoo(3, 4);
    var items := [PyObject(Foo(1, 2)), PyObject(Foo(3, 4))];
    assert Encode(items[0]) == Ok(JObject([Member("A", JInt(1)), Member("B", JInt(2))]));
    assert Encode(items[1]) == Ok(JObject([Member("A", JInt(3)), Member("B", JInt(4))]));
    var js := EncodeItems(items).value;
    assert js == [JObject([Member("A", JInt(1)), Member("B", JInt(2))]),
                  JObject([Member("A", JInt(3)), Member("B", JInt(4))])];
  }

  /** `Decimal('123.456')` is written as the string `"123.456"`. */
  lemma DumpsDecimal()
    ensures Dumps(PyObject(Obj("Decimal", Plain, NotIterable, None, Some("123.456")))) == Ok(JString("123.456"))
  {
    DumpsStr(Obj("Decimal", Plain, NotIterable, None, Some("123.456")));
  }

  /** `timedelta(days=5, seconds=12345)` is written as `"5 days, 3:25:45"`. */
  lemma DumpsTimedelta()
    ensures Dumps(PyObject(Obj("timedelta", Plain, NotIterable, None, Some("5 days, 3:25:45")))) ==
      Ok(JString("5 days, 3:25:45"))
  {
    DumpsStr(Obj("timedelta", Plain, NotIterable, None, Some("5 days, 3:25:45")));
  }

  /** With an ISO reader in arrow's place, the text the encoder wrote for the
      release comes back as the same date, and as the naive UTC datetime. */
  lemma LoadsRelease(baseline: BaselineDecoder)
    ensures Convert(ISO88601Wrapper(baseline, ParseIso), PyStr("2013-11-17")) ==
      Ok(PyObject(DateObject(Release.date)))
    ensures Convert(ISO88601Wrapper(baseline, ParseIso), PyStr("2013-11-17T12:00:00+00:00")) ==
      Ok(PyObject(DateTimeObject(Release)))
  {
    ParseIsoReadsIsoForms();
    ReleaseDateText();
    LoadsDumpedDate(ISO88601Wrapper(baseline, ParseIso), Release.date);
    ReleaseToUtc();
    ReleaseUtcText();
    LoadsDumpedDateTime(ISO88601Wrapper(baseline, ParseIso), Release);
    assert Naive(ReleaseUtc) == Release;
  }

  /** With the ISO reader in arrow's place, text shaped like a date-time whose
      fields are out of range stays text. */
  lemma LoadsInvalidMonthAsText(baseline: BaselineDecoder)
    ensures Convert(ISO88601Wrapper(baseline, ParseIso), PyStr("2013-99-99T00:00:00+00:00")) ==
      Ok(PyStr("2013-99-99T00:00:00+00:00"))
  {
    InvalidMonthUnread();
  }

  lemma InvalidMonthUnread()
    ensures ParseIso("2013-99-99T00:00:00+00:00") == ParserError
  {
    var s := "2013-99-99T00:00:00+00:00";
    var h := s[..10];
    assert h == "2013-99-99";
    assert h[5..7] == "99";
    assert DigitsValue("99") == 99 by { assert "99"[..1] == "9"; }
    assert !DateText(h) || ReadDate(h).month == 99;
    if ParseIso(s).Parsed? {
      assert false;
    }
  }
}

/** jsonext/__init__.py: `JSONEncoder`, whose base classes put the mixins in
    the order datetime, iterable, to_dict, stringify ahead of `json.JSONEncoder`;
    `dumps`, which is `json.dumps` with that encoder; and `loads`, the `decode`
    of one `ISO88601Wrapper` around a stdlib decoder.

    `json.JSONEncoder` is modelled on value trees: it encodes strings, numbers,
    booleans, `None`, lists, tuples and dicts itself and hands any other value
    to `default`, then encodes whatever `default` returns in its place. */
module Jsonext {
  import opened Basics
  import opened Temporal
  import opened PyObjects
  import opened Mixins
  import opened Wrappers

  /** The method resolution order of `JSONEncoder` before `json.JSONEncoder`. */
  const EncoderChain: seq<Mixin> :=
    [JSONDateTimeMixin, JSONIterableMixin, JSONToDictMixin, JSONStringifyMixin]

  /** `JSONEncoder().default(o)`: datetime first, then date, then iterables, then
      `to_dict`, then `__str__`, then the stdlib's `TypeError`. */
  function EncoderDefault(o: Obj): (r: Result<PyValue>)
    ensures r.Ok? ==> IsSubstitute(o, r.value)
    ensures IsDateTime(o) ==>
      r == (match ToUtc(o.kind.dt)
            case Ok(u) => Ok(PyStr(IsoFormat(u, 'T')))
            case Err(e) => Err(e))
    ensures o.kind.DateKind? ==> r == Ok(PyStr(FormatDate(o.kind.date)))
    ensures !IsDate(o) && o.iteration.Iterable? ==> r == Ok(PyList(o.iteration.elements))
    ensures !IsDate(o) && o.iteration.NotIterable? && o.toDict.Some? ==> r == Ok(o.toDict.value)
    ensures !IsDate(o) && o.iteration.NotIterable? && o.toDict.None? && o.str.Some? ==>
      r == Ok(PyStr(o.str.value))
    ensures !IsDate(o) && o.iteration.NotIterable? && o.toDict.None? && o.str.None? ==>
      r == Err(UnsupportedType(o))
  {
    var c := EncoderChain;
    if IsDate(o) then
      ChainPicksFirstHandler(c, o, 0);
      ChainDefault(c, o)
    else if o.iteration.Iterable? then
      ChainPicksFirstHandler(c, o, 1);
      ChainDefault(c, o)
    else if o.toDict.Some? then
      ChainPicksFirstHandler(c, o, 2);
      ChainDefault(c, o)
    else if o.str.Some? then
      ChainPicksFirstHandler(c, o, 3);
      ChainDefault(c, o)
    else
      ChainWithoutHandler(c, o);
      ChainDefault(c, o)
  }

  /** `JSONEncoder().encode(v)`, as a JSON value tree. The first value that
      raises ends it. */
  function Encode(v: PyValue): (r: Result<Json>)
    ensures (v.PyList? || v.PyTuple?) && r.Ok? ==> r.value.JArray? && |r.value.items| == |v.items|
    ensures v.PyDict? && r.Ok? ==> r.value.JObject? && |r.value.members| == |v.entries|
    ensures r.Err? ==> r.error.TypeError? || r.error == OutOfRange
    decreases Size(v), 0
  {
    match v
    case PyNone => Ok(JNull)
    case PyBool(b) => Ok(JBool(b))
    case PyInt(i) => Ok(JInt(i))
    case PyFloat(f) => Ok(JFloat(f))
    case PyStr(s) => Ok(JString(s))
    case PyList(items) =>
      (match EncodeItems(items)
       case Ok(js) => Ok(JArray(js))
       case Err(e) => Err(e))
    case PyTuple(items) =>
      (match EncodeItems(items)
       case Ok(js) => Ok(JArray(js))
       case Err(e) => Err(e))
    case PyDict(entries) =>
      (match EncodeEntries(entries)
       case Ok(ms) => Ok(JObject(ms))
       case Err(e) => Err(e))
    case PyObject(o) =>
      match EncoderDefault(o)
      case Err(e) => Err(e)
      case Ok(sub) =>
        SubstituteIsSmaller(o, sub);
        Encode(sub)
  }

  /** The elements of a list or tuple, each encoded, in order. */
  function EncodeItems(items: seq<PyValue>): (r: Result<seq<Json>>)
    ensures r.Ok? ==>
      |r.value| == |items| && forall i :: 0 <= i < |items| ==> Encode(items[i]) == Ok(r.value[i])
    ensures r.Err? ==> exists i :: 0 <= i < |items| && Encode(items[i]) == Err(r.error)
                                && forall j :: 0 <= j < i ==> Encode(items[j]).Ok?
    decreases SizeItems(items), 1
  {
    if items == [] then Ok([])
    else
      match Encode(items[0])
      case Err(e) => Err(e)
      case Ok(j) =>
        match EncodeItems(items[1..])
        case Err(e) =>
          ghost var k :| 0 <= k < |items[1..]| && Encode(items[1..][k]) == Err(e)
                         && forall j :: 0 <= j < k ==> Encode(items[1..][j]).Ok?;
          assert Encode(items[k + 1]) == Err(e);
          Err(e)
        case Ok(js) => Ok([j] + js)
  }

  /** The entries of a dict, keys kept and values encoded, in order. */
  function EncodeEntries(entries: seq<Entry>): (r: Result<seq<Member>>)
    ensures r.Ok? ==>
      && |r.value| == |entries|
      && forall i :: 0 <= i < |entries| ==>
           r.value[i].name == entries[i].key && Encode(entries[i].value) == Ok(r.value[i].value)
    ensures r.Err? ==> exists i :: 0 <= i < |entries| && Encode(entries[i].value) == Err(r.error)
                                && forall j :: 0 <= j < i ==> Encode(entries[j].value).Ok?
    decreases SizeEntries(entries), 1
  {
    if entries == [] then Ok([])
    else
      match Encode(entries[0].value)
      case Err(e) => Err(e)
      case Ok(j) =>
        match EncodeEntries(entries[1..])
        case Err(e) =>
          ghost var k :| 0 <= k < |entries[1..]| && Encode(entries[1..][k].value) == Err(e)
                         && forall j :: 0 <= j < k ==> Encode(entries[1..][j].value).Ok?;
          assert Encode(entries[k + 1].value) == Err(e);
          Err(e)
        case Ok(ms) => Ok([Member(entries[0].key, j)] + ms)
  }

  /** `jsonext.dumps(v)`, as the JSON value its text spells. */
  function Dumps(v: PyValue): (r: Result<Json>)
    ensures v.PyNone? ==> r == Ok(JNull)
    ensures v.PyBool? ==> r == Ok(JBool(v.b))
    ensures v.PyInt? ==> r == Ok(JInt(v.i))
    ensures v.PyFloat? ==> r == Ok(JFloat(v.f))
    ensures v.PyStr? ==> r == Ok(JString(v.s))
    ensures v.PyObject? && EncoderDefault(v.obj).Err? ==> r == Err(EncoderDefault(v.obj).error)
    ensures r.Err? ==> r.error.TypeError? || r.error == OutOfRange
  {
    Encode(v)
  }

  /** `jsonext.loads(text)`: the module-level `ISO88601Wrapper` around the stdlib
      decoder `baseline`, with arrow's parser `parse`. */
  function Loads(baseline: BaselineDecoder, parse: Parser, text: string): (r: Result<PyValue>)
    ensures baseline.decode(text).Err? ==> r == baseline.decode(text)
    ensures baseline.decode(text).Ok? ==> r == Convert(ISO88601Wrapper(baseline, parse), baseline.decode(text).value)
  {
    Decode(ISO88601Wrapper(baseline, parse), text)
  }

  // ------------------------------------------------------- the encoder chain

  /** In `EncoderChain` the iterable mixin comes before the `to_dict` one, so an
      iterable object with `to_dict` becomes the list of its elements. */
  lemma IterablePrecedesToDict(o: Obj)
    requires !IsDate(o) && o.iteration.Iterable? && o.toDict.Some?
    ensures ChainDefault(EncoderChain, o) == Ok(PyList(o.iteration.elements))
    ensures ChainDefault(EncoderChain, o) != Ok(o.toDict.value) || o.toDict.value == PyList(o.iteration.elements)
  {
    ChainPicksFirstHandler(EncoderChain, o, 1);
  }

  /** A datetime is written as the ISO form of the same instant in UTC, ending
      in `+00:00`; that text is a `TIME_RE` match and never a `DATE_RE` one. The
      only failure is a UTC instant outside years 1 to 9999. */
  lemma DumpsDateTime(o: Obj)
    requires IsDateTime(o)
    ensures ToUtc(o.kind.dt).Err? ==> Dumps(PyObject(o)) == Err(OutOfRange)
    ensures ToUtc(o.kind.dt).Ok? ==>
      var u := ToUtc(o.kind.dt).value;
      var s := IsoFormat(u, 'T');
      && Dumps(PyObject(o)) == Ok(JString(s))
      && UtcMinutes(u) == UtcMinutes(o.kind.dt)
      && u.second == o.kind.dt.second && u.microsecond == o.kind.dt.microsecond
      && s[|s| - 6..] == "+00:00"
      && MatchesDateTime(s) && !MatchesDate(s)
  {
    var t := o.kind.dt;
    if ToUtc(t).Ok? {
      var u := ToUtc(t).value;
      DumpsStringSubstitute(o, IsoFormat(u, 'T'));
      ToUtcKeepsInstant(t);
      FormattedDateTimeMatches(u);
      UtcSuffix(u);
    }
  }

  /** A `default` that returns a string has that string written. */
  lemma DumpsStringSubstitute(o: Obj, s: string)
    requires EncoderDefault(o) == Ok(PyStr(s))
    ensures Dumps(PyObject(o)) == Ok(JString(s))
  {
    assert Encode(PyStr(s)) == Ok(JString(s));
  }

  lemma UtcSuffix(u: PyDateTime)
    requires u.offset == Some(0)
    ensures var s := IsoFormat(u, 'T'); s[|s| - 6..] == "+00:00"
  {
    var s := IsoFormat(u, 'T');
    var prefix := FormatDate(u.date) + ['T'] + FormatClock(u.hour, u.minute, u.second) + FormatFraction(u.microsecond);
    assert s == prefix + FormatOffset(0);
    assert Pad(0, 2) == "00";
  }

  /** A date that is not a datetime is written as `YYYY-MM-DD` and nothing
      more; that text is a `DATE_RE` match. */
  lemma DumpsDate(o: Obj)
    requires o.kind.DateKind?
    ensures Dumps(PyObject(o)) == Ok(JString(FormatDate(o.kind.date)))
    ensures MatchesDate(FormatDate(o.kind.date)) && !MatchesDateTime(FormatDate(o.kind.date))
  {
    DumpsStringSubstitute(o, FormatDate(o.kind.date));
    FormattedDateMatches(o.kind.date);
  }

  /** An iterable is written as the list of its elements, even when it also
      has `to_dict`: the iterable mixin comes first. */
  lemma DumpsIterable(o: Obj)
    requires !IsDate(o) && o.iteration.Iterable?
    ensures Dumps(PyObject(o)) == Dumps(PyList(o.iteration.elements))
  {
  }

  /** An object with `to_dict` is written as what `to_dict()` returns. */
  lemma DumpsToDict(o: Obj)
    requires !IsDate(o) && o.iteration.NotIterable? && o.toDict.Some?
    ensures Dumps(PyObject(o)) == Dumps(o.toDict.value)
  {
  }

  /** Anything else with `__str__` is written as the string `str(o)`. */
  lemma DumpsStr(o: Obj)
    requires !IsDate(o) && o.iteration.NotIterable? && o.toDict.None? && o.str.Some?
    ensures Dumps(PyObject(o)) == Ok(JString(o.str.value))
  {
    DumpsStringSubstitute(o, o.str.value);
  }

  /** An object with none of the capabilities reaches `json.JSONEncoder.default`. */
  lemma DumpsUnsupported(o: Obj)
    requires !IsDate(o) && o.iteration.NotIterable? && o.toDict.None? && o.str.None?
    ensures Dumps(PyObject(o)) == Err(UnsupportedType(o))
  {
  }

  /** Every object in `v`, and in what its `default` hands on, has `__str__`. */
  ghost predicate AllStringifiable(v: PyValue)
    decreases v
  {
    match v
    case PyList(items) => forall i :: 0 <= i < |items| ==> AllStringifiable(items[i])
    case PyTuple(items) => forall i :: 0 <= i < |items| ==> AllStringifiable(items[i])
    case PyDict(entries) => forall i :: 0 <= i < |entries| ==> AllStringifiable(entries[i].value)
    case PyObject(o) =>
      && o.str.Some?
      && (o.iteration.Iterable? ==>
            forall i :: 0 <= i < |o.iteration.elements| ==> AllStringifiable(o.iteration.elements[i]))
      && (o.toDict.Some? ==> AllStringifiable(o.toDict.value))
    case _ => true
  }

  /** Python objects have `__str__`, so the stringify mixin catches whatever
      the others leave and `dumps` never raises the stdlib's `TypeError`. */
  lemma {:induction false} DumpsNeverUnsupported(v: PyValue)
    requires AllStringifiable(v)
    ensures !(Dumps(v).Err? && Dumps(v).error.TypeError?)
    decreases Size(v)
  {
    match v
    case PyList(items) =>
      if Dumps(v).Err? {
        var i :| 0 <= i < |items| && Encode(items[i]) == Err(Dumps(v).error);
        DumpsNeverUnsupported(items[i]);
      }
    case PyTuple(items) =>
      if Dumps(v).Err? {
        var i :| 0 <= i < |items| && Encode(items[i]) == Err(Dumps(v).error);
        DumpsNeverUnsupported(items[i]);
      }
    case PyDict(entries) =>
      if Dumps(v).Err? {
        var i :| 0 <= i < |entries| && Encode(entries[i].value) == Err(Dumps(v).error);
        DumpsNeverUnsupported(entries[i].value);
      }
    case PyObject(o) =>
      if IsDate(o) {
        if EncoderDefault(o).Ok? {
          DumpsStringSubstitute(o, EncoderDefault(o).value.s);
        }
      } else if o.iteration.Iterable? {
        DumpsNeverUnsupported(PyList(o.iteration.elements));
      } else if o.toDict.Some? {
        DumpsNeverUnsupported(o.toDict.value);
      } else {
        DumpsStr(o);
      }
    case _ =>
  }

  // ------------------------------------------------ the encoder meets the decoder

  lemma FormattedDateMatches(d: PyDate)
    ensures MatchesDate(FormatDate(d)) && !MatchesDateTime(FormatDate(d))
  {
    var s := FormatDate(d);
    assert s[..10] == s;
  }

  lemma FormattedDateTimeMatches(t: PyDateTime)
    ensures MatchesDateTime(IsoFormat(t, 'T')) && !MatchesDate(IsoFormat(t, 'T'))
  {
    var s := IsoFormat(t, 'T');
    var head := FormatDate(t.date) + ['T'] + FormatClock(t.hour, t.minute, t.second);
    var tail := FormatFraction(t.microsecond) + (if t.offset.Some? then FormatOffset(t.offset.value) else "");
    assert s == head + tail;
    assert s[..19] == head && s[19..] == tail;
    FormattedHeadShape(t);
    FormattedTailHasNoSpace(t);
  }

  lemma FormattedHeadShape(t: PyDateTime)
    ensures DateTimeShape(FormatDate(t.date) + ['T'] + FormatClock(t.hour, t.minute, t.second))
  {
    var date, clock := FormatDate(t.date), FormatClock(t.hour, t.minute, t.second);
    var head := date + ['T'] + clock;
    assert head[..10] == date;
    FormattedDateMatches(t.date);
    assert date[..10] == date;
    assert clock[0..2] == Pad(t.hour, 2) && clock[3..5] == Pad(t.minute, 2) && clock[6..8] == Pad(t.second, 2);
    assert forall i :: 11 <= i < 19 ==> head[i] == clock[i - 11];
  }

  lemma FormattedTailHasNoSpace(t: PyDateTime)
    ensures NoSpace(FormatFraction(t.microsecond) + (if t.offset.Some? then FormatOffset(t.offset.value) else ""))
  {
    var fraction := FormatFraction(t.microsecond);
    var offset := if t.offset.Some? then FormatOffset(t.offset.value) else "";
    if t.microsecond != 0 {
      assert fraction[1..] == Pad(t.microsecond, 6);
      assert forall i :: 1 <= i < 7 ==> fraction[i] == Pad(t.microsecond, 6)[i - 1];
    }
    assert NoSpace(fraction);
    if t.offset.Some? {
      var m := t.offset.value;
      var a := if m < 0 then -m else m;
      assert offset[1..3] == Pad(a / 60, 2) && offset[4..] == Pad(a % 60, 2);
    }
    assert NoSpace(offset);
  }

  /** Loading a date `dumps` wrote gives back that date. */
  lemma LoadsDumpedDate(w: Wrapper, d: PyDate)
    requires w.ISO88601Wrapper? && ReadsIsoForms(w.parse)
    ensures Dumps(PyObject(DateObject(d))) == Ok(JString(FormatDate(d)))
    ensures Convert(w, PyStr(FormatDate(d))) == Ok(PyObject(DateObject(d)))
  {
    DumpsDate(DateObject(d));
    assert w.parse(FormatDate(d)) == Parsed(Midnight(d));
  }

  /** Loading a datetime `dumps` wrote gives the naive UTC datetime of the same
      instant, and dumping that writes the same text again. */
  lemma LoadsDumpedDateTime(w: Wrapper, t: PyDateTime)
    requires w.ISO88601Wrapper? && ReadsIsoForms(w.parse)
    requires ToUtc(t).Ok?
    ensures Dumps(PyObject(DateTimeObject(t))) == Ok(JString(IsoFormat(ToUtc(t).value, 'T')))
    ensures Convert(w, PyStr(IsoFormat(ToUtc(t).value, 'T'))) == Ok(PyObject(DateTimeObject(Naive(ToUtc(t).value))))
    ensures UtcMinutes(Naive(ToUtc(t).value)) == UtcMinutes(t)
    ensures Dumps(PyObject(DateTimeObject(Naive(ToUtc(t).value)))) == Ok(JString(IsoFormat(ToUtc(t).value, 'T')))
  {
    var u := ToUtc(t).value;
    DumpsDateTime(DateTimeObject(t));
    LoadsUtcText(w, u);
    DumpsNaiveUtc(u);
  }

  /** The ISO text of a UTC value loads as the naive datetime of that value. */
  lemma LoadsUtcText(w: Wrapper, u: PyDateTime)
    requires w.ISO88601Wrapper? && ReadsIsoForms(w.parse) && u.offset == Some(0)
    ensures Convert(w, PyStr(IsoFormat(u, 'T'))) == Ok(PyObject(DateTimeObject(Naive(u))))
  {
    var s := IsoFormat(u, 'T');
    FormattedDateTimeMatches(u);
    assert w.parse(s) == Parsed(u);
    ToUtcOfUtc(u);
  }

  /** A naive datetime is read as UTC, so dumping it writes its fields with `+00:00`. */
  lemma DumpsNaiveUtc(u: PyDateTime)
    requires u.offset == Some(0)
    ensures Dumps(PyObject(DateTimeObject(Naive(u)))) == Ok(JString(IsoFormat(u, 'T')))
  {
    assert ToUtc(Naive(u)) == Ok(u);
    DumpsStringSubstitute(DateTimeObject(Naive(u)), IsoFormat(u, 'T'));
  }

  /** The same round trip through `loads`, when the stdlib decoder reads the
      text as the string `dumps` wrote. */
  lemma LoadsOfDumpedDateTime(baseline: BaselineDecoder, parse: Parser, text: string, t: PyDateTime)
    requires ReadsIsoForms(parse) && ToUtc(t).Ok?
    requires baseline.decode(text) == Ok(PyStr(IsoFormat(ToUtc(t).value, 'T')))
    ensures Loads(baseline, parse, text) == Ok(PyObject(DateTimeObject(Naive(ToUtc(t).value))))
  {
    LoadsDumpedDateTime(ISO88601Wrapper(baseline, parse), t);
  }

  /** The decoded tree holds `None` wherever JSON had `null`, so `loads` raises
      on any text with a `null` the stdlib decoder reads. */
  lemma LoadsFailsOnNull(baseline: BaselineDecoder, parse: Parser, text: string)
    requires baseline.decode(text).Ok? && ContainsNone(baseline.decode(text).value)
    ensures Loads(baseline, parse, text).Err?
  {
    NoneMakesWalkFail(ISO88601Wrapper(baseline, parse), baseline.decode(text).value);
  }
}

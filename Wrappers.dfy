/** The decoder wrappers of jsonext/wrappers.py. `DecoderWrapper` runs a
    wrapped stdlib decoder and then walks the value it produced, rebuilding
    dicts and lists and converting each leaf; `ISO88601Wrapper` changes only the
    text leaves, promoting those shaped like an RFC 3339 `full-date` or
    `date-time` to `date` and `datetime` objects. */
module Wrappers {
  import opened Basics
  import opened Temporal
  import opened PyObjects

  /** What `arrow.get(text)` does: return an aware value, raise
      `arrow.ParserError`, or raise something else. */
  datatype ParseOutcome = Parsed(value: PyDateTime) | ParserError | Raised(error: PyException)

  type Parser = string -> ParseOutcome

  /** Midnight UTC of a date: what arrow reads a bare `YYYY-MM-DD` as. */
  function Midnight(d: PyDate): (t: PyDateTime)
    ensures t.date == d && t.offset == Some(0)
    ensures t.hour == 0 && t.minute == 0 && t.second == 0 && t.microsecond == 0
  {
    DateTime(d, 0, 0, 0, 0, Some(0))
  }

  /** What the model assumes of arrow: it reads back the ISO text the encoder
      writes, `YYYY-MM-DD` as midnight UTC of that date and an aware
      `isoformat('T')` as that very value. */
  ghost predicate ReadsIsoForms(parse: Parser) {
    && (forall d: PyDate :: parse(FormatDate(d)) == Parsed(Midnight(d)))
    && (forall t: PyDateTime :: t.offset.Some? ==> parse(IsoFormat(t, 'T')) == Parsed(t))
  }

  /** What `raw_decode` returns: the value and the index where it ends. */
  datatype RawDecoded = RawDecoded(value: PyValue, end: int)

  /** The wrapped stdlib decoder, whose `decode` and `raw_decode` are opaque here. */
  datatype BaselineDecoder = BaselineDecoder(decode: string -> Result<PyValue>,
                                             rawDecode: string -> Result<RawDecoded>)

  /** The two wrapper classes; `_decoder` is set by the constructor and only read after. */
  datatype Wrapper =
    | DecoderWrapper(decoder: BaselineDecoder)
    | ISO88601Wrapper(decoder: BaselineDecoder, parse: Parser)

  function ClassName(w: Wrapper): string {
    if w.DecoderWrapper? then "DecoderWrapper" else "ISO88601Wrapper"
  }

  /** The exception `_convert` raises on `None`: it calls `self.convert_none`,
      an attribute no wrapper has (the method is `_convert_none`). */
  function MissingConvertNone(w: Wrapper): (e: PyException)
    ensures e.AttributeError? && |e.message| >= 14 && e.message[|e.message| - 14..] == "'convert_none'"
  {
    AttributeError("'" + ClassName(w) + "' object has no attribute 'convert_none'")
  }

  /** The exception of `assert False, 'unreachable'`. */
  const Unreachable := AssertionError("unreachable")

  // -------------------------------------------------------------- patterns

  /** `\d`, read as an ASCII digit. */
  predicate IsDigitAt(s: string, i: int) {
    0 <= i < |s| && IsAsciiDigit(s[i])
  }

  /** `\s`: the characters Python's `str.isspace()` accepts. */
  predicate IsSpace(c: char) {
    || ('\t' <= c <= '\r')
    || ('\U{1C}' <= c <= '\U{1F}')
    || c == ' ' || c == '\U{85}' || c == '\U{A0}' || c == '\U{1680}'
    || ('\U{2000}' <= c <= '\U{200A}')
    || c == '\U{2028}' || c == '\U{2029}' || c == '\U{202F}' || c == '\U{205F}' || c == '\U{3000}'
  }

  /** `$` after position `i`: the end of the text, or a final newline. */
  predicate EndsAt(s: string, i: int) {
    |s| == i || (0 <= i && |s| == i + 1 && s[i] == '\n')
  }

  /** `\d{4}-\d{2}-\d{2}`. */
  predicate DateShape(h: string) {
    && |h| == 10
    && IsDigitAt(h, 0) && IsDigitAt(h, 1) && IsDigitAt(h, 2) && IsDigitAt(h, 3)
    && h[4] == '-' && IsDigitAt(h, 5) && IsDigitAt(h, 6)
    && h[7] == '-' && IsDigitAt(h, 8) && IsDigitAt(h, 9)
  }

  /** `\d{4}-\d{2}-\d{2}T\d{2}:\d{2}:\d{2}`. */
  predicate DateTimeShape(h: string) {
    && |h| == 19 && DateShape(h[..10])
    && h[10] == 'T' && IsDigitAt(h, 11) && IsDigitAt(h, 12)
    && h[13] == ':' && IsDigitAt(h, 14) && IsDigitAt(h, 15)
    && h[16] == ':' && IsDigitAt(h, 17) && IsDigitAt(h, 18)
  }

  predicate NoSpace(t: string) {
    forall i :: 0 <= i < |t| ==> !IsSpace(t[i])
  }

  /** `[^\s]*$`: non-space characters up to the end, or up to a final newline. */
  predicate NonSpaceTail(t: string) {
    NoSpace(t) || (|t| > 0 && t[|t| - 1] == '\n' && NoSpace(t[..|t| - 1]))
  }

  /** `DATE_RE.match(s)` for `^\d{4}-\d{2}-\d{2}$`: ten characters, or eleven
      ending in a newline, with dashes at 4 and 7 and digits elsewhere. */
  function MatchesDate(s: string): (b: bool)
    ensures b <==>
      && (|s| == 10 || (|s| == 11 && s[10] == '\n'))
      && s[4] == '-' && s[7] == '-'
      && forall i :: 0 <= i < 10 && i != 4 && i != 7 ==> IsAsciiDigit(s[i])
  {
    |s| >= 10 && DateShape(s[..10]) && EndsAt(s, 10)
  }

  /** `TIME_RE.match(s)` for `^\d{4}-\d{2}-\d{2}T\d{2}:\d{2}:\d{2}[^\s]*$`: the
      19-character date and clock, then no whitespace but a final newline. */
  function MatchesDateTime(s: string): (b: bool)
    ensures b <==>
      && |s| >= 19
      && s[4] == '-' && s[7] == '-' && s[10] == 'T' && s[13] == ':' && s[16] == ':'
      && (forall i :: 0 <= i < 19 && i != 4 && i != 7 && i != 10 && i != 13 && i != 16 ==> IsAsciiDigit(s[i]))
      && (forall i :: 19 <= i < |s| ==> !IsSpace(s[i]) || (i == |s| - 1 && s[i] == '\n'))
  {
    |s| >= 19 && DateTimeShape(s[..19]) && NonSpaceTail(s[19..])
  }

  /** No text matches both patterns, so trying `DATE_RE` first never hides a date-time. */
  lemma PatternsAreDisjoint(s: string)
    ensures !(MatchesDate(s) && MatchesDateTime(s))
  {
  }

  // ------------------------------------------------------------ conversion

  /** `_convert_text`. The base class returns the text. The ISO wrapper hands
      text matching one of its patterns to arrow: a full date becomes that
      `date`, a date-time the naive `datetime` of its UTC instant; when arrow
      raises `ParserError` the text is kept, and any other exception escapes. */
  function ConvertText(w: Wrapper, s: string): (r: Result<PyValue>)
    ensures w.DecoderWrapper? ==> r == Ok(PyStr(s))
    ensures !MatchesDate(s) && !MatchesDateTime(s) ==> r == Ok(PyStr(s))
    ensures w.ISO88601Wrapper? && w.parse(s).ParserError? ==> r == Ok(PyStr(s))
    ensures r.Ok? ==> r.value == PyStr(s) || (r.value.PyObject? && IsDate(r.value.obj))
    ensures r.Ok? && r.value.PyObject? ==>
      && r.value.obj.iteration.NotIterable? && r.value.obj.toDict.None?
      && (r.value.obj.kind.DateKind? <==> MatchesDate(s))
      && (r.value.obj.kind.DateTimeKind? <==> MatchesDateTime(s))
      && (r.value.obj.kind.DateTimeKind? ==> r.value.obj.kind.dt.offset.None?)
    ensures w.ISO88601Wrapper? && w.parse(s).Parsed? && r.Ok? && r.value.PyObject? ==>
      && (r.value.obj.kind.DateKind? ==> r.value.obj.kind.date == w.parse(s).value.date)
      && (r.value.obj.kind.DateTimeKind? ==> UtcMinutes(r.value.obj.kind.dt) == UtcMinutes(w.parse(s).value))
    ensures r.Err? ==>
      && w.ISO88601Wrapper? && (MatchesDate(s) || MatchesDateTime(s))
      && (w.parse(s).Raised? || (MatchesDateTime(s) && r.error == OutOfRange))
    ensures w.ISO88601Wrapper? && (MatchesDate(s) || MatchesDateTime(s)) && w.parse(s).Raised? ==>
      r == Err(w.parse(s).error)
    ensures w.ISO88601Wrapper? && MatchesDate(s) && w.parse(s).Parsed? ==>
      r == Ok(PyObject(DateObject(w.parse(s).value.date)))
    ensures w.ISO88601Wrapper? && MatchesDateTime(s) && w.parse(s).Parsed? ==>
      (r.Ok? <==> ToUtc(w.parse(s).value).Ok?)
    ensures w.ISO88601Wrapper? && MatchesDateTime(s) && w.parse(s).Parsed? && r.Ok? ==>
      && r.value.PyObject? && r.value.obj.kind.DateTimeKind?
      && r.value.obj == DateTimeObject(r.value.obj.kind.dt)
      && r.value.obj.kind.dt.offset.None?
      && UtcMinutes(r.value.obj.kind.dt) == UtcMinutes(w.parse(s).value)
      && r.value.obj.kind.dt.second == w.parse(s).value.second
      && r.value.obj.kind.dt.microsecond == w.parse(s).value.microsecond
  {
    match w
    case DecoderWrapper(_) => Ok(PyStr(s))
    case ISO88601Wrapper(_, parse) =>
      if MatchesDate(s) then
        match parse(s)
        case Parsed(a) => Ok(PyObject(DateObject(a.date)))
        case ParserError => Ok(PyStr(s))
        case Raised(e) => Err(e)
      else if MatchesDateTime(s) then
        match parse(s)
        case Parsed(a) =>
          (match ToUtc(a)
           case Ok(u) =>
             ToUtcKeepsInstant(a);
             Ok(PyObject(DateTimeObject(Naive(u))))
           case Err(e) => Err(e))
        case ParserError => Ok(PyStr(s))
        case Raised(e) => Err(e)
      else Ok(PyStr(s))
  }

  /** `_convert`: a type dispatch in the source's order. Dicts and lists are
      rebuilt, text goes to `_convert_text`, ints (bools among them) and floats
      are returned as they are; `None` raises `AttributeError` and any other
      kind of value reaches `assert False`. */
  function Convert(w: Wrapper, v: PyValue): (r: Result<PyValue>)
    ensures v.PyInt? || v.PyBool? || v.PyFloat? ==> r == Ok(v)
    ensures v.PyNone? ==> r == Err(MissingConvertNone(w))
    ensures v.PyTuple? || v.PyObject? ==> r == Err(Unreachable)
    ensures v.PyList? && r.Ok? ==> r.value.PyList? && |r.value.items| == |v.items|
    ensures v.PyDict? && r.Ok? ==> r.value.PyDict? && |r.value.entries| == |v.entries|
    decreases v, 1
  {
    if v.PyDict? then
      match ConvertEntries(w, v.entries)
      case Ok(es) => Ok(PyDict(es))
      case Err(e) => Err(e)
    else if v.PyList? then
      match ConvertItems(w, v.items)
      case Ok(xs) => Ok(PyList(xs))
      case Err(e) => Err(e)
    else if v.PyStr? then ConvertText(w, v.s)
    else if v.PyInt? || v.PyBool? then Ok(v)   // _convert_integer; bool is an int subclass
    else if v.PyFloat? then Ok(v)              // _convert_float
    else if v.PyNone? then Err(MissingConvertNone(w))
    else Err(Unreachable)
  }

  /** `_convert_list`: the list of converted elements, in order; the first
      element whose conversion raises ends the walk with that exception. */
  function ConvertItems(w: Wrapper, items: seq<PyValue>): (r: Result<seq<PyValue>>)
    ensures r.Ok? <==> forall i :: 0 <= i < |items| ==> Convert(w, items[i]).Ok?
    ensures r.Ok? ==>
      |r.value| == |items| && forall i :: 0 <= i < |items| ==> Convert(w, items[i]) == Ok(r.value[i])
    ensures r.Err? ==> exists i :: 0 <= i < |items| && Convert(w, items[i]) == Err(r.error)
                                && forall j :: 0 <= j < i ==> Convert(w, items[j]).Ok?
    decreases items, 0
  {
    if items == [] then Ok([])
    else
      match Convert(w, items[0])
      case Err(e) => Err(e)
      case Ok(x) =>
        match ConvertItems(w, items[1..])
        case Err(e) =>
          ghost var k :| 0 <= k < |items[1..]| && Convert(w, items[1..][k]) == Err(e)
                         && forall j :: 0 <= j < k ==> Convert(w, items[1..][j]).Ok?;
          assert Convert(w, items[k + 1]) == Err(e);
          Err(e)
        case Ok(xs) => Ok([x] + xs)
  }

  /** `_convert_dict`: the same keys in the same order, each value replaced by
      its own conversion; the first value whose conversion raises ends the walk. */
  function ConvertEntries(w: Wrapper, entries: seq<Entry>): (r: Result<seq<Entry>>)
    ensures r.Ok? <==> forall i :: 0 <= i < |entries| ==> Convert(w, entries[i].value).Ok?
    ensures r.Ok? ==>
      && |r.value| == |entries|
      && forall i :: 0 <= i < |entries| ==>
           r.value[i].key == entries[i].key && Convert(w, entries[i].value) == Ok(r.value[i].value)
    ensures r.Err? ==> exists i :: 0 <= i < |entries| && Convert(w, entries[i].value) == Err(r.error)
                                && forall j :: 0 <= j < i ==> Convert(w, entries[j].value).Ok?
    decreases entries, 0
  {
    if entries == [] then Ok([])
    else
      match Convert(w, entries[0].value)
      case Err(e) => Err(e)
      case Ok(x) =>
        match ConvertEntries(w, entries[1..])
        case Err(e) =>
          ghost var k :| 0 <= k < |entries[1..]| && Convert(w, entries[1..][k].value) == Err(e)
                         && forall j :: 0 <= j < k ==> Convert(w, entries[1..][j].value).Ok?;
          assert Convert(w, entries[k + 1].value) == Err(e);
          Err(e)
        case Ok(es) => Ok([Entry(entries[0].key, x)] + es)
  }

  /** `decode`: the wrapped decoder's result, walked; its exceptions escape as they are. */
  function Decode(w: Wrapper, text: string): (r: Result<PyValue>)
    ensures w.decoder.decode(text).Err? ==> r == w.decoder.decode(text)
    ensures w.decoder.decode(text).Ok? ==> r == Convert(w, w.decoder.decode(text).value)
  {
    match w.decoder.decode(text)
    case Err(e) => Err(e)
    case Ok(v) => Convert(w, v)
  }

  /** `raw_recode`: walks the `(value, end)` tuple `raw_decode` returns. */
  function RawRecode(w: Wrapper, text: string): (r: Result<PyValue>)
    ensures r.Err?
    ensures w.decoder.rawDecode(text).Ok? ==> r == Err(Unreachable)
    ensures w.decoder.rawDecode(text).Err? ==> r == Err(w.decoder.rawDecode(text).error)
  {
    match w.decoder.rawDecode(text)
    case Err(e) => Err(e)
    case Ok(raw) => Convert(w, PyTuple([raw.value, PyInt(raw.end)]))
  }

  // ------------------------------------------------------------- the walk

  /** The kinds of value `json.JSONDecoder.decode` produces, `None` excepted. */
  predicate NullFreeJson(v: PyValue) {
    match v
    case PyDict(entries) => forall i :: 0 <= i < |entries| ==> NullFreeJson(entries[i].value)
    case PyList(items) => forall i :: 0 <= i < |items| ==> NullFreeJson(items[i])
    case PyStr(_) => true
    case PyInt(_) => true
    case PyBool(_) => true
    case PyFloat(_) => true
    case _ => false
  }

  /** A `None` somewhere in the dicts and lists of `v`. */
  predicate ContainsNone(v: PyValue) {
    match v
    case PyNone => true
    case PyDict(entries) => exists i :: 0 <= i < |entries| && ContainsNone(entries[i].value)
    case PyList(items) => exists i :: 0 <= i < |items| && ContainsNone(items[i])
    case _ => false
  }

  /** `r` is `v` with some text leaves promoted to date or datetime objects and
      nothing else changed: same container kinds, same lengths, same keys in
      the same order, same other leaves. */
  predicate PromotedFrom(r: PyValue, v: PyValue) {
    match v
    case PyStr(s) => r == v || (r.PyObject? && IsDate(r.obj))
    case PyList(items) =>
      r.PyList? && |r.items| == |items|
      && forall i :: 0 <= i < |items| ==> PromotedFrom(r.items[i], items[i])
    case PyDict(entries) =>
      r.PyDict? && |r.entries| == |entries|
      && forall i :: 0 <= i < |entries| ==>
           r.entries[i].key == entries[i].key && PromotedFrom(r.entries[i].value, entries[i].value)
    case _ => r == v
  }

  /** The walk keeps the shape of the tree and changes text leaves only. */
  lemma {:induction false} ConvertKeepsShape(w: Wrapper, v: PyValue)
    requires Convert(w, v).Ok?
    ensures PromotedFrom(Convert(w, v).value, v)
  {
    match v
    case PyList(items) =>
      var r := Convert(w, v).value;
      forall i | 0 <= i < |items| ensures PromotedFrom(r.items[i], items[i]) {
        ConvertKeepsShape(w, items[i]);
      }
    case PyDict(entries) =>
      var r := Convert(w, v).value;
      forall i | 0 <= i < |entries|
        ensures r.entries[i].key == entries[i].key && PromotedFrom(r.entries[i].value, entries[i].value)
      {
        ConvertKeepsShape(w, entries[i].value);
      }
    case _ =>
  }

  /** The base wrapper gives back what the stdlib decoder produced, provided
      it holds no `None`. */
  lemma {:induction false} BaseWrapperIsIdentity(w: Wrapper, v: PyValue)
    requires w.DecoderWrapper? && NullFreeJson(v)
    ensures Convert(w, v) == Ok(v)
  {
    match v
    case PyList(items) =>
      forall i | 0 <= i < |items| ensures Convert(w, items[i]) == Ok(items[i]) {
        BaseWrapperIsIdentity(w, items[i]);
      }
      var xs := ConvertItems(w, items).value;
      assert xs == items;
    case PyDict(entries) =>
      forall i | 0 <= i < |entries| ensures Convert(w, entries[i].value) == Ok(entries[i].value) {
        BaseWrapperIsIdentity(w, entries[i].value);
      }
      var es := ConvertEntries(w, entries).value;
      assert es == entries;
    case _ =>
  }

  /** A tree holding a `None` anywhere cannot be walked: the walk raises. */
  lemma {:induction false} NoneMakesWalkFail(w: Wrapper, v: PyValue)
    requires ContainsNone(v)
    ensures Convert(w, v).Err?
  {
    match v
    case PyNone =>
    case PyList(items) =>
      var i :| 0 <= i < |items| && ContainsNone(items[i]);
      NoneMakesWalkFail(w, items[i]);
    case PyDict(entries) =>
      var i :| 0 <= i < |entries| && ContainsNone(entries[i].value);
      NoneMakesWalkFail(w, entries[i].value);
  }
}

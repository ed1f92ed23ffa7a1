# jsonext, modelled in Dafny

jsonext extends Python's `json` module in two directions.

- **Encoding.** `jsonext.dumps` is `json.dumps` with an encoder class whose
  `default(o)` tries a chain of mixins for values `json` cannot encode. In
  order they are:
  - a `datetime` becomes the ISO 8601 text of its UTC instant (ending in `+00:00`);
  - a `date` becomes `YYYY-MM-DD`;
  - anything `iter()` accepts becomes the list of its elements;
  - anything with `to_dict` becomes what `to_dict()` returns;
  - anything with `__str__` becomes `str(o)`;
  - the stdlib's own `default`, which raises `TypeError`.
- **Decoding.** `jsonext.loads` is the `decode` of one `ISO88601Wrapper` built
  once around a stdlib decoder. It walks the decoded tree. Strings shaped like
  an ISO date (`DATE_RE`) or date-time (`TIME_RE`) go to arrow. The result is a
  `date`, or the naive UTC `datetime` of the instant.

The model works on value trees. Python values are the `PyValue` datatype
(`PyObjects.dfy`). A value `json` cannot encode is an `Obj` described by what
the mixins probe:

- whether it is a `datetime`, a `date`, or neither;
- what `iter(o)` yields, if anything;
- what `o.to_dict()` returns, if it has one;
- what `str(o)` is, if it has `__str__`.

JSON output is the `Json` datatype, the value kinds of section 3 of RFC 8259.
Everything in the core is pure, so every operation is a function.

Files:

- `Basics.dfy`: `Option`, `Result` and the Python exceptions the core can raise.
- `Temporal.dfy`: the date and time arithmetic the encoder relies on.
  - Validity of dates and datetimes, as in Python's `datetime`.
  - `toordinal` as the reference for day arithmetic.
  - The UTC conversion of `arrow.get(o).to('utc')`, with day carry and `OverflowError`.
  - Zero-padded `isoformat()` text.
- `PyObjects.dfy`: Python values, capability objects, JSON values, and a size
  measure that shows the encoder terminates.
- `Mixins.dfy`: the four `default` methods and the chain.
- `Wrappers.dfy`: `DecoderWrapper` and `ISO88601Wrapper`.
  - The `_convert` dispatch and its list, dict and text converters.
  - `decode` and `raw_recode`.
  - The two regular expressions as recognisers.
- `IsoReader.dfy`: a concrete reader for the two ISO forms the encoder writes.
  It shows the assumption the round-trip lemmas make of arrow (`ReadsIsoForms`)
  can be met.
- `Jsonext.dfy`: the encoder class, `dumps`, `loads`, and the lemmas that tie the
  encoder to the decoder.
- `Examples.dfy`: the examples in the docstrings of `jsonext/mixins.py`, worked
  through the model, plus two decoding examples.

**Iterable before `to_dict`.** The base-class list at
`jsonext/__init__.py:19-20` puts the iterable mixin before the `to_dict` one. So
an iterable object that also has `to_dict` is encoded as the list of its
elements, never as its `to_dict()` result (`Jsonext.EncoderChain`,
`Jsonext.IterablePrecedesToDict`, `Jsonext.DumpsIterable`).

**Two defects in the decoder are reproduced as written:**

- `_convert` calls `self.convert_none`, which does not exist; the method is
  `_convert_none`. So any `null` in the input makes `loads` raise
  `AttributeError`. See `Wrappers.Convert` and `Jsonext.LoadsFailsOnNull`.
- `raw_recode` walks the `(value, end)` tuple that `raw_decode` returns, which
  reaches `assert False`. See `Wrappers.RawRecode`.

arrow's parser is a parameter of type `string -> ParseOutcome`: it returns a
value, raises `ParserError`, or raises something else. The stdlib decoder is a
`BaselineDecoder` parameter. The lemmas that need arrow to read back what the
encoder wrote assume `ReadsIsoForms(parse)`. `IsoReader.ParseIsoReadsIsoForms`
proves that assumption for a concrete reader.

## Model

| member | source | states |
|---|---|---|
| Temporal.ToUtc | jsonext/mixins.py:28 | `to('utc')` gives offset +00:00 and keeps seconds and microseconds. It fails exactly when the UTC day falls before 1 January of year 1 or after 31 December 9999, and then raises `OverflowError` |
| Temporal.ToUtcKeepsInstant | jsonext/mixins.py:27-28 | the UTC value denotes the same minute as the original, a naive value being read as UTC |
| Temporal.NextDayIsNext | jsonext/mixins.py:28 | carrying into the next day gives a calendar date whose ordinal (`toordinal`) is one more |
| Temporal.PrevDayIsPrevious | jsonext/mixins.py:28 | borrowing from the previous day gives a calendar date whose ordinal is one less |
| Temporal.ToUtcOfUtc | jsonext/wrappers.py:69 | a value already at offset +00:00 is left unchanged by the conversion |
| Temporal.Naive | jsonext/wrappers.py:69 | `.naive` drops the offset and keeps the date, hour, minute, second and microsecond |
| Temporal.Pad | jsonext/mixins.py:28-30 | a zero-padded field has exactly the requested width and only ASCII digits |
| Temporal.PadRoundTrip | jsonext/mixins.py:28-30 | reading back a zero-padded number gives the number when it fits the width |
| Temporal.FormatDate | jsonext/mixins.py:30 | `date.isoformat()` is ten characters |
| Temporal.IsoFormat | jsonext/mixins.py:28 | `isoformat()` is 19 characters, plus 7 when there are microseconds, plus 6 when the value is aware |
| PyObjects.DateObject | jsonext/mixins.py:29-30 | a `date` is a date and not a datetime, is not iterable and has no `to_dict` |
| PyObjects.DateTimeObject | jsonext/mixins.py:27-28 | a `datetime` is a datetime, is not iterable and has no `to_dict` |
| Mixins.DateTimeDefault | jsonext/mixins.py:26-31 | passes the object on exactly when it is not a date. A datetime is never written in date-only form; it becomes the ISO text of its UTC instant, at least 25 characters and ending in `+00:00`. It raises `OverflowError` exactly when the UTC conversion fails. A plain date becomes `YYYY-MM-DD` |
| Mixins.IterableDefault | jsonext/mixins.py:48-55 | passes the object on exactly when `iter` fails; otherwise returns the list of the elements, same length, same order |
| Mixins.ToDictDefault | jsonext/mixins.py:75-78 | passes the object on exactly when it has no `to_dict`; otherwise returns exactly what `to_dict()` returns |
| Mixins.StringifyDefault | jsonext/mixins.py:96-99 | passes the object on exactly when it has no `__str__`; otherwise returns the string `str(o)` |
| Mixins.StdlibDefault | jsonext/__init__.py:19-20 | the stdlib `default` at the end of the order always raises `TypeError` |
| Mixins.SubstituteIsSmaller | jsonext/__init__.py:19-20 | whatever a mixin hands back is smaller than the object it replaces, so re-encoding it terminates |
| Mixins.ChainDefault | jsonext/__init__.py:19-20 | the chain returns a string, the object's elements or its `to_dict()` result, or raises the stdlib `TypeError` or `OverflowError` |
| Mixins.ChainPicksFirstHandler | jsonext/__init__.py:19-20 | the chain answers as the first mixin that handles the object; every mixin before it passes the same object on and adds nothing |
| Mixins.ChainWithoutHandler | jsonext/__init__.py:19-20 | when no mixin handles the object, the stdlib `TypeError` is raised |
| Jsonext.EncoderDefault | jsonext/__init__.py:19-21 | the encoder's `default` tries datetime, then date, then iterable, then `to_dict`, then `__str__`, then raises `TypeError`; each case gives that mixin's result |
| Jsonext.Encode | jsonext/__init__.py:26 | lists and tuples become arrays and dicts become objects of the same length; the only errors are `TypeError` and `OverflowError` |
| Jsonext.EncodeItems | jsonext/__init__.py:26 | on success element i of the array is the encoding of element i; a failure is the failure of the first element that fails |
| Jsonext.EncodeEntries | jsonext/__init__.py:26 | on success the keys are kept in order and each value is encoded; a failure is the failure of the first value that fails |
| Jsonext.Dumps | jsonext/__init__.py:26 | `dumps` writes `None`, bools, ints, floats and strings as themselves; an error from the encoder's `default` escapes; the only errors are `TypeError` and `OverflowError` |
| Jsonext.IterablePrecedesToDict | jsonext/__init__.py:19-20 | with the encoder's base-class order (`EncoderChain`), an iterable object that also has `to_dict` becomes the list of its elements, not its `to_dict()` result |
| Jsonext.Loads | jsonext/__init__.py:24-27 | `loads` is the ISO wrapper's `decode` around one fixed stdlib decoder: its errors escape, otherwise its result is walked |
| Jsonext.DumpsDateTime | jsonext/mixins.py:26-28 | `dumps` of a datetime is the ISO text of its UTC instant, same instant, same seconds and microseconds, ending in `+00:00`. That text matches `TIME_RE` and not `DATE_RE`. The only failure is `OverflowError` |
| Jsonext.UtcSuffix | jsonext/mixins.py:10 | the ISO text of a UTC value ends in `+00:00` |
| Jsonext.DumpsStringSubstitute | jsonext/__init__.py:26 | a string handed back by `default` is written as that JSON string |
| Jsonext.DumpsDate | jsonext/mixins.py:29-30 | `dumps` of a plain date is exactly `YYYY-MM-DD`, which matches `DATE_RE` and not `TIME_RE` |
| Jsonext.DumpsIterable | jsonext/mixins.py:48-54 | `dumps` of an iterable equals `dumps` of the list of its elements, whether or not it has `to_dict` |
| Jsonext.DumpsToDict | jsonext/mixins.py:75-77 | `dumps` of a non-iterable object with `to_dict` equals `dumps` of its `to_dict()` result |
| Jsonext.DumpsStr | jsonext/mixins.py:96-98 | `dumps` of any other object with `__str__` is the JSON string `str(o)` |
| Jsonext.DumpsUnsupported | jsonext/__init__.py:19-20 | an object with none of the capabilities raises the stdlib `TypeError` |
| Jsonext.DumpsNeverUnsupported | jsonext/mixins.py:96-98 | when every object reachable through lists, dicts, elements and `to_dict` results has `__str__`, `dumps` never raises `TypeError` |
| Jsonext.FormattedDateMatches | jsonext/wrappers.py:60 | every date the encoder writes matches `DATE_RE` and not `TIME_RE` |
| Jsonext.FormattedDateTimeMatches | jsonext/wrappers.py:61 | every datetime the encoder writes matches `TIME_RE` and not `DATE_RE` |
| Jsonext.FormattedHeadShape | jsonext/wrappers.py:61 | the first 19 characters of written datetime text have the `TIME_RE` date-and-clock shape |
| Jsonext.FormattedTailHasNoSpace | jsonext/wrappers.py:61 | the fraction and offset of written datetime text hold no whitespace |
| Jsonext.LoadsDumpedDate | jsonext/wrappers.py:65-66 | a date written by `dumps` is read back as the same date |
| Jsonext.LoadsDumpedDateTime | jsonext/wrappers.py:68-69 | a datetime written by `dumps` is read back as the naive UTC datetime of the same instant, and dumping that writes the same text again |
| Jsonext.LoadsUtcText | jsonext/wrappers.py:68-69 | the ISO text of a UTC value is read as that value without its offset |
| Jsonext.DumpsNaiveUtc | jsonext/mixins.py:27-28 | a naive datetime is written as if it were UTC |
| Jsonext.LoadsOfDumpedDateTime | jsonext/__init__.py:24-27 | the datetime round trip through `loads` itself |
| Jsonext.LoadsFailsOnNull | jsonext/wrappers.py:46-47 | `loads` raises on any text whose decoded tree holds a `None` |
| Wrappers.Midnight | jsonext/wrappers.py:66 | arrow reads a bare date as that date at 00:00:00.000000 with offset +00:00 |
| Wrappers.MissingConvertNone | jsonext/wrappers.py:47 | the exception for the misspelt `self.convert_none` is an `AttributeError` naming `'convert_none'` |
| Wrappers.MatchesDate | jsonext/wrappers.py:60 | `DATE_RE` matches exactly ten characters, or eleven ending in a newline, with dashes at positions 4 and 7 and ASCII digits elsewhere |
| Wrappers.MatchesDateTime | jsonext/wrappers.py:61 | `TIME_RE` matches exactly the texts whose first 19 characters are digits with `-`, `-`, `T`, `:`, `:` at positions 4, 7, 10, 13, 16, and whose rest holds no whitespace except a final newline |
| Wrappers.PatternsAreDisjoint | jsonext/wrappers.py:60-61 | no text matches both `DATE_RE` and `TIME_RE`, so trying dates first hides no date-time |
| Wrappers.ConvertText | jsonext/wrappers.py:63-73 | the base wrapper keeps the text. Text matching neither pattern, or that arrow rejects with `ParserError`, is kept. A `DATE_RE` match that arrow parses becomes the `date` arrow read. A `TIME_RE` match that arrow parses becomes a naive `datetime` of the same UTC instant, with the same seconds and microseconds, exactly when the UTC conversion succeeds. Any other exception from arrow escapes unchanged; the only other error is `OverflowError` |
| Wrappers.Convert | jsonext/wrappers.py:33-48 | ints, bools and floats come back unchanged; lists and dicts keep their length; `None` raises `AttributeError` for `convert_none`; a tuple or other object reaches `assert False` |
| Wrappers.ConvertItems | jsonext/wrappers.py:15-16 | succeeds exactly when every element converts; element i of the result is the conversion of element i; a failure is the first failing element's |
| Wrappers.ConvertEntries | jsonext/wrappers.py:12-13 | succeeds exactly when every value converts; same keys in the same order, each value replaced by its conversion; a failure is the first failing value's |
| Wrappers.Decode | jsonext/wrappers.py:50-52 | errors of the wrapped decoder escape unchanged; otherwise its result is walked |
| Wrappers.RawRecode | jsonext/wrappers.py:54-56 | `raw_recode` always raises: an error from `raw_decode` escapes unchanged, and otherwise the walk reaches `assert False` |
| Wrappers.ConvertKeepsShape | jsonext/wrappers.py:33-48 | a successful walk keeps container kinds, lengths, keys and order, changes only text leaves, and only into dates or datetimes |
| Wrappers.BaseWrapperIsIdentity | jsonext/wrappers.py:18-31 | the base wrapper returns any `None`-free decoded tree unchanged |
| Wrappers.NoneMakesWalkFail | jsonext/wrappers.py:46-47 | a `None` anywhere in a tree makes the walk raise |
| IsoReader.ParseIso | jsonext/wrappers.py:65-69 | the concrete reader never raises anything but `ParserError`; what it accepts is 10, 25 or 32 characters long, aware, and dated by its first ten characters |
| IsoReader.ReadsDateText | jsonext/wrappers.py:65-66 | written `YYYY-MM-DD` text is read back as the same date |
| IsoReader.ReadsClockText | jsonext/wrappers.py:68-69 | written `HH:MM:SS` text is read back as the same hour, minute and second |
| IsoReader.ReadsFractionText | jsonext/wrappers.py:68-69 | written microseconds are read back unchanged, an empty fraction as zero |
| IsoReader.ReadsOffsetText | jsonext/wrappers.py:68-69 | a written `+HH:MM` or `-HH:MM` offset is read back as the same number of minutes |
| IsoReader.ReadsFormattedDate | jsonext/wrappers.py:65-66 | the reader reads a written date as midnight UTC of that date |
| IsoReader.ReadsFormattedDateTime | jsonext/wrappers.py:68-69 | the reader reads written aware datetime text as that very value |
| IsoReader.ParseIsoReadsIsoForms | jsonext/wrappers.py:65-69 | the reader meets the assumption the round-trip lemmas make of arrow |
| Examples.DumpsReleaseDateTime | jsonext/mixins.py:16-18 | naive `datetime(2013, 11, 17, 12, 0, 0)` is written as `"2013-11-17T12:00:00+00:00"` |
| Examples.DumpsReleaseDate | jsonext/mixins.py:19-23 | its date is written as `"2013-11-17"` |
| Examples.DumpsSquares | jsonext/mixins.py:43-45 | the squares generator is written as `[0, 1, 4, 9, 16, 25, 36, 49, 64, 81]` |
| Examples.EncodesInts | jsonext/mixins.py:54 | a list of ints is written as the array of the same ints |
| Examples.DumpsFoo | jsonext/mixins.py:63-68 | `Foo(a, b)` is written as `{"A": a, "B": b}` |
| Examples.DumpsFooList | jsonext/mixins.py:70-72 | `[Foo(1, 2), Foo(3, 4)]` is written as `[{"A": 1, "B": 2}, {"A": 3, "B": 4}]` |
| Examples.DumpsDecimal | jsonext/mixins.py:86-89 | `Decimal('123.456')` is written as `"123.456"` |
| Examples.DumpsTimedelta | jsonext/mixins.py:90-93 | `timedelta(days=5, seconds=12345)` is written as `"5 days, 3:25:45"` |
| Examples.LoadsRelease | jsonext/wrappers.py:63-69 | the texts written for the release date and datetime are read back as that date and that naive datetime |
| Examples.InvalidMonthUnread | jsonext/wrappers.py:70-71 | the reader rejects `2013-99-99T00:00:00+00:00` with `ParserError` |
| Examples.LoadsInvalidMonthAsText | jsonext/wrappers.py:70-71 | so that text, although it matches `TIME_RE`, is kept as text |

## Left out

- Text layout of `json.dumps` is not modelled: separators, indentation, escaping, `ensure_ascii`, `sort_keys`. The encoder is modelled as the JSON value tree the text spells.
- Jsonext.Dumps: the keyword arguments `dumps` passes through to `json.dumps` are not modelled, including a `default=` of the caller's that would replace the chain. `Dumps` is the call with only `cls` fixed.
- Jsonext.Encode: `json`'s circular-reference check and `skipkeys` are not modelled. Dict keys are strings only; `json`'s conversion of int, float, bool and `None` keys is left out.
- Floats are kept as bit patterns and only pass through. Their text form and `NaN`/`Infinity` handling are not modelled.
- Iterables are finite sequences. The infinite generators the docstring warns about do not terminate in Python and cannot be described here.
- An `Obj` lists the elements `iter(o)` yields, what `to_dict()` returns and what `str(o)` gives as fixed values. Side effects of those calls, and exceptions they raise, are not modelled. Neither are exceptions other than `TypeError` raised by `iter`.
- Wrappers.ConvertText: arrow is a parameter, so what it accepts beyond the encoder's own ISO forms is not pinned down. Time zone names, daylight-saving rules and offsets with seconds are not modelled.
- Wrappers.IsDigitAt: `\d` is read as an ASCII digit. Python 3's `re` also accepts other Unicode decimal digits for `str` patterns.
- Running under `python -O` strips `assert False`. The walk would then return `None` for unexpected values instead of raising; the model keeps the assertion.
- `jsonext/core.py` is not part of this model. It is an older variant that `jsonext/__init__.py` never imports.
- `jsonext/contrib/flask.py` is not part of this model. It is an adapter around Flask's and werkzeug's types.
- `setup.py` is not part of this model. It holds packaging metadata only.
- `DecoderWrapper.__init__` is the `decoder` field of the `Wrapper` datatype. No wrapper changes it after construction.

/** The Python values the encoder and the decoder wrapper see, and the JSON
    value tree (the value kinds of section 3 of RFC 8259) the encoder produces. */
module PyObjects {
  import opened Basics
  import opened Temporal

  /** An IEEE 754 double, kept as its bit pattern: floats only pass through. */
  datatype Float = Float(bits: bv64)

  /** A Python value. The first eight kinds are the ones `json` handles
      natively; `PyObject` is anything else, described by its capabilities. */
  datatype PyValue =
    | PyNone
    | PyBool(b: bool)
    | PyInt(i: int)
    | PyFloat(f: Float)
    | PyStr(s: string)
    | PyList(items: seq<PyValue>)
    | PyTuple(items: seq<PyValue>)
    | PyDict(entries: seq<Entry>)
    | PyObject(obj: Obj)

  /** One key of a dict with its value, in the dict's insertion order. */
  datatype Entry = Entry(key: string, value: PyValue)

  /** Whether an object is a `datetime.datetime`, a `datetime.date` that is not
      one, or neither. A datetime is also an instance of `date`; `IsDate` below
      says so. */
  datatype Kind = Plain | DateKind(date: PyDate) | DateTimeKind(dt: PyDateTime)

  /** Whether `iter(o)` succeeds, and if so the elements it yields, in order. */
  datatype Iteration = NotIterable | Iterable(elements: seq<PyValue>)

  /** A value `json` cannot encode natively. `toDict` is what `o.to_dict()`
      returns when `o` has that attribute; `str` is `str(o)` when `o` has a
      `__str__` attribute. */
  datatype Obj = Obj(typeName: string, kind: Kind, iteration: Iteration,
                     toDict: Option<PyValue>, str: Option<string>)

  predicate IsDateTime(o: Obj) { o.kind.DateTimeKind? }

  /** `isinstance(o, datetime.date)`, which holds of datetimes too. */
  predicate IsDate(o: Obj) { o.kind.DateKind? || o.kind.DateTimeKind? }

  /** The object `datetime.date(...)` builds; `str` of a date is its ISO form. */
  function DateObject(d: PyDate): (o: Obj)
    ensures IsDate(o) && !IsDateTime(o) && o.iteration.NotIterable? && o.toDict.None?
  {
    Obj("date", DateKind(d), NotIterable, None, Some(FormatDate(d)))
  }

  /** The object `datetime.datetime(...)` builds; `str` of a datetime is its
      ISO form with a space between date and time. */
  function DateTimeObject(t: PyDateTime): (o: Obj)
    ensures IsDateTime(o) && o.iteration.NotIterable? && o.toDict.None?
  {
    Obj("datetime", DateTimeKind(t), NotIterable, None, Some(IsoFormat(t, ' ')))
  }

  /** A JSON value: what `json.dumps` writes out, as a tree. */
  datatype Json =
    | JNull
    | JBool(b: bool)
    | JInt(i: int)
    | JFloat(f: Float)
    | JString(s: string)
    | JArray(items: seq<Json>)
    | JObject(members: seq<Member>)

  datatype Member = Member(name: string, value: Json)

  /** A size that shrinks from an object to each substitute its `default` can
      return: a string, the list of its elements, or its `to_dict()` result. */
  ghost function Size(v: PyValue): (n: nat)
    ensures n >= 1
  {
    match v
    case PyList(items) => 1 + SizeItems(items)
    case PyTuple(items) => 1 + SizeItems(items)
    case PyDict(entries) => 1 + SizeEntries(entries)
    case PyObject(o) =>
      2 + (if o.iteration.Iterable? then 1 + SizeItems(o.iteration.elements) else 0)
        + (if o.toDict.Some? then Size(o.toDict.value) else 0)
    case _ => 1
  }

  ghost function SizeItems(items: seq<PyValue>): (n: nat)
    ensures forall i :: 0 <= i < |items| ==> Size(items[i]) <= n
  {
    if items == [] then 0 else Size(items[0]) + SizeItems(items[1..])
  }

  ghost function SizeEntries(entries: seq<Entry>): (n: nat)
    ensures forall i :: 0 <= i < |entries| ==> Size(entries[i].value) <= n
  {
    if entries == [] then 0 else Size(entries[0].value) + SizeEntries(entries[1..])
  }
}

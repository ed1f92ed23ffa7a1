/** The encoder mixins of jsonext/mixins.py. Each mixin's `default(o)` either
    returns a substitute for `o` or hands the same `o` to the next class in the
    method resolution order via `super().default(o)`. A chain of mixins is the
    part of that order before `json.JSONEncoder`, whose own `default` raises. */
module Mixins {
  import opened Basics
  import opened Temporal
  import opened PyObjects

  datatype Mixin = JSONDateTimeMixin | JSONIterableMixin | JSONToDictMixin | JSONStringifyMixin

  /** What one `default` does with an object. */
  datatype Step =
    | Return(value: PyValue)
    | Raise(error: PyException)
      /** `super().default(o)`: the same object goes on to the next class. */
    | Super

  /** `JSONDateTimeMixin.default`: a datetime becomes the ISO form of its UTC
      instant, a date its `YYYY-MM-DD` form; the datetime test comes first. */
  function DateTimeDefault(o: Obj): (r: Step)
    ensures r.Super? <==> !IsDate(o)
    ensures IsDateTime(o) ==> r != Return(PyStr(FormatDate(o.kind.dt.date)))
    ensures IsDateTime(o) && r.Return? ==>
      && ToUtc(o.kind.dt).Ok?
      && r.value == PyStr(IsoFormat(ToUtc(o.kind.dt).value, 'T'))
      && |r.value.s| >= 25
      && r.value.s[|r.value.s| - 6..] == "+00:00"
    ensures IsDateTime(o) && r.Raise? ==> r.error == OutOfRange
    ensures IsDateTime(o) ==> (r.Raise? <==> ToUtc(o.kind.dt).Err?)
    ensures o.kind.DateKind? ==> r == Return(PyStr(FormatDate(o.kind.date)))
  {
    match o.kind
    case DateTimeKind(t) =>
      (match ToUtc(t)
       case Ok(u) =>
         assert FormatOffset(0) == "+00:00" by {
           assert Pad(0, 2) == "00";
         }
         Return(PyStr(IsoFormat(u, 'T')))
       case Err(e) => Raise(e))
    case DateKind(d) => Return(PyStr(FormatDate(d)))
    case Plain => Super
  }

  /** `JSONIterableMixin.default`: when `iter(o)` succeeds, the list of what it yields. */
  function IterableDefault(o: Obj): (r: Step)
    ensures r.Super? <==> o.iteration.NotIterable?
    ensures o.iteration.Iterable? ==>
      r.Return? && r.value.PyList? && |r.value.items| == |o.iteration.elements|
      && forall i :: 0 <= i < |r.value.items| ==> r.value.items[i] == o.iteration.elements[i]
  {
    match o.iteration
    case Iterable(elements) => Return(PyList(elements))
    case NotIterable => Super
  }

  /** `JSONToDictMixin.default`: when `o` has `to_dict`, exactly what `o.to_dict()` returns. */
  function ToDictDefault(o: Obj): (r: Step)
    ensures r.Super? <==> o.toDict.None?
    ensures o.toDict.Some? ==> r == Return(o.toDict.value)
  {
    match o.toDict
    case Some(d) => Return(d)
    case None => Super
  }

  /** `JSONStringifyMixin.default`: when `o` has `__str__`, the string `str(o)`. */
  function StringifyDefault(o: Obj): (r: Step)
    ensures r.Super? <==> o.str.None?
    ensures o.str.Some? ==> r == Return(PyStr(o.str.value))
  {
    match o.str
    case Some(s) => Return(PyStr(s))
    case None => Super
  }

  function MixinDefault(m: Mixin, o: Obj): Step {
    match m
    case JSONDateTimeMixin => DateTimeDefault(o)
    case JSONIterableMixin => IterableDefault(o)
    case JSONToDictMixin => ToDictDefault(o)
    case JSONStringifyMixin => StringifyDefault(o)
  }

  /** Whether mixin `m` deals with `o` itself rather than passing it on. */
  predicate Handles(m: Mixin, o: Obj) {
    !MixinDefault(m, o).Super?
  }

  function UnsupportedType(o: Obj): PyException {
    TypeError("Object of type " + o.typeName + " is not JSON serializable")
  }

  /** `json.JSONEncoder.default`: the end of every chain, which always raises. */
  function StdlibDefault(o: Obj): (r: Result<PyValue>)
    ensures r.Err? && r.error.TypeError?
  {
    Err(UnsupportedType(o))
  }

  /** What a `default` in this module may hand back to the encoder in place of
      `o`: a string, the list of `o`'s elements, or its `to_dict()` result. */
  predicate IsSubstitute(o: Obj, v: PyValue) {
    || v.PyStr?
    || (o.iteration.Iterable? && v == PyList(o.iteration.elements))
    || (o.toDict.Some? && v == o.toDict.value)
  }

  /** Every substitute is smaller than the object it replaces, so encoding it
      makes progress. */
  lemma SubstituteIsSmaller(o: Obj, v: PyValue)
    requires IsSubstitute(o, v)
    ensures Size(v) < Size(PyObject(o))
  {
  }

  /** `default(o)` of an encoder whose method resolution order lists `chain`
      and then `json.JSONEncoder`. */
  function ChainDefault(chain: seq<Mixin>, o: Obj): (r: Result<PyValue>)
    ensures r.Ok? ==> IsSubstitute(o, r.value)
    ensures r.Err? ==> r.error == UnsupportedType(o) || r.error == OutOfRange
  {
    if chain == [] then StdlibDefault(o)
    else
      match MixinDefault(chain[0], o)
      case Return(v) => Ok(v)
      case Raise(e) => Err(e)
      case Super => ChainDefault(chain[1..], o)
  }

  function StepResult(s: Step): Result<PyValue>
    requires !s.Super?
  {
    if s.Return? then Ok(s.value) else Err(s.error)
  }

  /** The chain answers as its first mixin that handles `o` does: every mixin
      before it passes the same object on and adds nothing. */
  lemma {:induction false} ChainPicksFirstHandler(chain: seq<Mixin>, o: Obj, i: nat)
    requires i < |chain| && Handles(chain[i], o)
    requires forall j :: 0 <= j < i ==> !Handles(chain[j], o)
    ensures ChainDefault(chain, o) == StepResult(MixinDefault(chain[i], o))
  {
    if i > 0 {
      ChainPicksFirstHandler(chain[1..], o, i - 1);
    }
  }

  /** When no mixin handles `o`, the chain ends in `json.JSONEncoder.default`. */
  lemma {:induction false} ChainWithoutHandler(chain: seq<Mixin>, o: Obj)
    requires forall j :: 0 <= j < |chain| ==> !Handles(chain[j], o)
    ensures ChainDefault(chain, o) == Err(UnsupportedType(o))
  {
    if chain != [] {
      ChainWithoutHandler(chain[1..], o);
    }
  }
}

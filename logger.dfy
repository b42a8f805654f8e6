/** The structured-field part of pkg/logger: turning loosely typed key/value
    arguments into typed log fields, and deriving loggers that carry extra
    fields. Values are modelled by their dynamic Go type; the underlying
    log sink and the context are opaque handles. */
module Logger {
  import opened Wrappers

  /** A 64-bit signed integer, the width of Go's `int` and `int64` here. */
  newtype Int64 = x: int | -0x8000_0000_0000_0000 <= x < 0x8000_0000_0000_0000

  /** A float64 kept as its bit pattern; nothing here does arithmetic on it. */
  datatype Float64 = Float64(bits: bv64)

  /** A value passed to the logger, by its dynamic type. The first four are
      the built-in `string`, `int`, `int64` and `float64`; `NilValue` is an
      untyped nil; `NamedValue` is a value of a defined type (such as
      `type Level string`), known only by its underlying kind; `OtherValue`
      is any other type, named by its kind. */
  datatype Value =
    | StringValue(s: string)
    | IntValue(i: Int64)
    | Int64Value(i: Int64)
    | Float64Value(f: Float64)
    | NilValue
    | NamedValue(kind: Kind)
    | OtherValue(kindName: string)

  /** The reflect kinds the logger distinguishes. */
  datatype Kind = StringKind | IntKind | Int64Kind | Float64Kind | OtherKind(name: string)

  /** The zap field types that occur here; `UnknownType` is the zero value. */
  datatype FieldType = UnknownType | Int64Type | StringType

  /** What a field carries in its interface slot. */
  datatype Interface = NoInterface | FloatInterface(f: Float64)

  /** A zap field: key, type tag, and the integer, string and interface slots. */
  datatype ZapField = ZapField(key: string, fieldType: FieldType, integer: Int64, str: string, iface: Interface)

  /** The zero-valued field, returned for values of unknown kind. */
  const ZeroField := ZapField("", UnknownType, 0, "", NoInterface)

  /** The kind table: strings, ints and int64s have a field type; nothing else does. */
  const KindToFieldType: map<Kind, FieldType> :=
    map[StringKind := StringType, Int64Kind := Int64Type, IntKind := Int64Type]

  /** The kind of a value; an untyped nil has none (asking for it panics). */
  function KindOf(v: Value): Option<Kind> {
    match v
    case StringValue(_) => Some(StringKind)
    case IntValue(_) => Some(IntKind)
    case Int64Value(_) => Some(Int64Kind)
    case Float64Value(_) => Some(Float64Kind)
    case NilValue => None
    case NamedValue(kind) => Some(kind)
    case OtherValue(name) => Some(OtherKind(name))
  }

  /** The kinds whose case in the kind switch asserts the value to a built-in
      type; a value of such a kind that is not of that very type panics. */
  predicate Asserted(k: Kind) {
    !k.OtherKind?
  }

  /** Builds the field for `key` and `val`, following the kind switch. The
      type tag comes from the kind table, so a float gets `UnknownType`. The
      int64 case asserts the value to be an `int`, which panics for an int64;
      a value of a named type panics at the assertion of its kind's case; an
      untyped nil panics when its kind is asked for. Any other kind gives the
      zero field, without even the key. */
  function Field(key: string, val: Value): (r: Outcome<ZapField>)
    ensures r.Panicked? <==> val.NilValue? || val.Int64Value? || (val.NamedValue? && Asserted(val.kind))
    ensures r.Done? ==>
              r.value.fieldType == (if val.StringValue? then StringType else if val.IntValue? then Int64Type else UnknownType)
    ensures val.StringValue? ==> r == Done(ZapField(key, StringType, 0, val.s, NoInterface))
    ensures val.IntValue? ==> r == Done(ZapField(key, Int64Type, val.i, "", NoInterface))
    ensures val.Float64Value? ==> r == Done(ZapField(key, UnknownType, 0, "", FloatInterface(val.f)))
    ensures val.OtherValue? || (val.NamedValue? && !Asserted(val.kind)) ==> r == Done(ZeroField)
  {
    match KindOf(val)
    case None => Panicked("runtime error: invalid memory address or nil pointer dereference")
    case Some(kind) =>
      var zapType := if kind in KindToFieldType then KindToFieldType[kind] else UnknownType;
      match kind
      case StringKind =>
        if val.StringValue? then Done(ZapField(key, zapType, 0, val.s, NoInterface))
        else Panicked("interface conversion: interface {} is not string")
      case IntKind =>
        if val.IntValue? then Done(ZapField(key, zapType, val.i, "", NoInterface))
        else Panicked("interface conversion: interface {} is not int")
      case Int64Kind => Panicked("interface conversion: interface {} is not int")
      case Float64Kind =>
        if val.Float64Value? then Done(ZapField(key, zapType, 0, "", FloatInterface(val.f)))
        else Panicked("interface conversion: interface {} is not float64")
      case OtherKind(_) => Done(ZeroField)
  }

  /** Prepends a field to a list of fields, unless the list is a panic. */
  function Prepend(f: ZapField, rest: Outcome<seq<ZapField>>): Outcome<seq<ZapField>> {
    match rest
    case Done(fs) => Done([f] + fs)
    case Panicked(why) => Panicked(why)
  }

  /** Fields already collected, followed by the outcome of the rest. */
  function Then(done: seq<ZapField>, rest: Outcome<seq<ZapField>>): Outcome<seq<ZapField>> {
    match rest
    case Done(fs) => Done(done + fs)
    case Panicked(why) => Panicked(why)
  }

  /** Collecting one more field before the rest. */
  lemma ThenAppendsOne(done: seq<ZapField>, f: ZapField, rest: Outcome<seq<ZapField>>)
    ensures Then(done, Prepend(f, rest)) == Then(done + [f], rest)
  {
    if rest.Done? {
      assert done + ([f] + rest.value) == (done + [f]) + rest.value;
    }
  }

  /** Nothing collected, or nothing left: the other side alone. */
  lemma ThenNothing(done: seq<ZapField>, rest: Outcome<seq<ZapField>>)
    ensures Then([], rest) == rest
    ensures Then(done, Done([])) == Done(done)
  {
    assert done + [] == done;
    if rest.Done? {
      assert [] + rest.value == rest.value;
    }
  }

  /** The fields of an argument list read as pairs (0,1), (2,3), ...: a pair
      whose first element is a string gives one field, any other pair gives
      none, a trailing unpaired argument is ignored, and the first panicking
      field aborts everything. */
  function FieldsOf(a: seq<Value>): Outcome<seq<ZapField>>
    decreases |a|
  {
    if |a| < 2 then Done([])
    else if a[0].StringValue? then
      match Field(a[0].s, a[1])
      case Done(f) => Prepend(f, FieldsOf(a[2..]))
      case Panicked(why) => Panicked(why)
    else FieldsOf(a[2..])
  }

  /** The loop over the variadic arguments, two at a time. */
  method Fields(a: seq<Value>) returns (r: Outcome<seq<ZapField>>)
    ensures r == FieldsOf(a)
  {
    var fields: seq<ZapField> := [];
    var i := 0;
    assert a[i..] == a;
    ThenNothing(fields, FieldsOf(a));
    while i < |a| - 1
      invariant 0 <= i <= |a|
      invariant FieldsOf(a) == Then(fields, FieldsOf(a[i..]))
    {
      assert a[i..][2..] == a[i + 2..];
      if a[i].StringValue? {
        var f := Field(a[i].s, a[i + 1]);
        if f.Panicked? {
          return Panicked(f.reason);
        }
        ThenAppendsOne(fields, f.value, FieldsOf(a[i + 2..]));
        fields := fields + [f.value];
      }
      i := i + 2;
    }
    ThenNothing(fields, Done([]));
    return Done(fields);
  }

  // ---------------------------------------------------------------------
  // Properties of FieldsOf

  /** The number of argument pairs whose first element is a string. */
  function StringKeyedPairs(a: seq<Value>): (n: nat)
    ensures n <= |a| / 2
    decreases |a|
  {
    if |a| < 2 then 0
    else (if a[0].StringValue? then 1 else 0) + StringKeyedPairs(a[2..])
  }

  /** Without a panic there is exactly one field per string-keyed pair, so at
      most half as many fields as arguments. */
  lemma {:induction false} FieldsCount(a: seq<Value>)
    requires FieldsOf(a).Done?
    ensures |FieldsOf(a).value| == StringKeyedPairs(a) <= |a| / 2
    decreases |a|
  {
    if |a| >= 2 {
      FieldsCount(a[2..]);
    }
  }

  /** The fields of two argument lists laid end to end are the fields of the
      first followed by those of the second (when the first has even length):
      pair order is preserved and a panic in the first list wins. */
  lemma {:induction false} FieldsAppend(a: seq<Value>, b: seq<Value>)
    requires |a| % 2 == 0
    ensures FieldsOf(a + b) ==
              match FieldsOf(a)
              case Done(fa) => Then(fa, FieldsOf(b))
              case Panicked(why) => Panicked(why)
    decreases |a|
  {
    if a == [] {
      assert a + b == b;
      assert FieldsOf(b) == Then([], FieldsOf(b)) by {
        if FieldsOf(b).Done? {
          assert [] + FieldsOf(b).value == FieldsOf(b).value;
        }
      }
    } else {
      assert (a + b)[2..] == a[2..] + b;
      FieldsAppend(a[2..], b);
      if a[0].StringValue? && Field(a[0].s, a[1]).Done? && FieldsOf(a[2..]).Done? {
        var f := Field(a[0].s, a[1]).value;
        if FieldsOf(b).Done? {
          assert [f] + (FieldsOf(a[2..]).value + FieldsOf(b).value)
              == ([f] + FieldsOf(a[2..]).value) + FieldsOf(b).value;
        }
      }
    }
  }

  /** A trailing unpaired argument contributes nothing. */
  lemma TrailingArgumentIgnored(a: seq<Value>, x: Value)
    requires |a| % 2 == 0
    ensures FieldsOf(a + [x]) == FieldsOf(a)
  {
    FieldsAppend(a, [x]);
    if FieldsOf(a).Done? {
      assert FieldsOf(a).value + [] == FieldsOf(a).value;
    }
  }

  /** A pair whose first element is not a string contributes nothing, wherever it is. */
  lemma NonStringKeyIgnored(a: seq<Value>, k: Value, v: Value, b: seq<Value>)
    requires |a| % 2 == 0 && !k.StringValue?
    ensures FieldsOf(a + [k, v] + b) == FieldsOf(a + b)
  {
    FieldsAppend(a, [k, v] + b);
    FieldsAppend(a, b);
    assert a + [k, v] + b == a + ([k, v] + b);
    assert ([k, v] + b)[2..] == b;
  }

  /** A key of a named string type is not a string to the type assertion, so
      its pair contributes nothing. */
  lemma NamedStringKeyIgnored(a: seq<Value>, v: Value, b: seq<Value>)
    requires |a| % 2 == 0
    ensures FieldsOf(a + [NamedValue(StringKind), v] + b) == FieldsOf(a + b)
  {
    NonStringKeyIgnored(a, NamedValue(StringKind), v, b);
  }

  /** A string key with a value of unknown kind still yields a field: the zero
      field. */
  lemma UnknownKindYieldsZeroField(key: string, name: string)
    ensures FieldsOf([StringValue(key), OtherValue(name)]) == Done([ZeroField])
  {
    assert [StringValue(key), OtherValue(name)][2..] == [];
    assert [ZeroField] + [] == [ZeroField];
  }

  // ---------------------------------------------------------------------
  // Loggers

  /** The opaque handles a logger shares with the loggers derived from it. */
  datatype Context = Context(id: nat)
  datatype Sink = Sink(id: nat)

  /** A logger: its context, its sink, and the fields added to every entry. */
  datatype Logger = Logger(ctx: Context, sink: Sink, fields: seq<ZapField>)

  /** A new logger; `built` is the outcome of building the sink, whose error
      is passed on. A new logger carries no fields. */
  function New(ctx: Context, built: Result<Sink, string>): (r: Result<Logger, string>)
    ensures r.Success? <==> built.Success?
    ensures r.Failure? ==> r.error == built.error
    ensures r.Success? ==> r.value.ctx == ctx && r.value.sink == built.value && r.value.fields == []
  {
    match built
    case Failure(err) => Failure(err)
    case Success(sink) => Success(Logger(ctx, sink, []))
  }

  /** A logger with the given fields added after the receiver's own; the
      receiver is left as it was. */
  function WithFields(l: Logger, f: seq<ZapField>): (r: Logger)
    ensures r.ctx == l.ctx && r.sink == l.sink
    ensures |r.fields| == |l.fields| + |f|
    ensures r.fields[..|l.fields|] == l.fields && r.fields[|l.fields|..] == f
  {
    Logger(l.ctx, l.sink, l.fields + f)
  }

  /** A logger with one field added after the receiver's own, or the panic of
      building that field. */
  function WithField(l: Logger, key: string, val: Value): (r: Outcome<Logger>)
    ensures r.Done? <==> Field(key, val).Done?
    ensures r.Done? ==> r.value == WithFields(l, [Field(key, val).value])
  {
    match Field(key, val)
    case Done(f) => Done(Logger(l.ctx, l.sink, l.fields + [f]))
    case Panicked(why) => Panicked(why)
  }

  /** Adding fields in two steps is adding them all at once, in order. */
  lemma WithFieldsTwice(l: Logger, f: seq<ZapField>, g: seq<ZapField>)
    ensures WithFields(WithFields(l, f), g) == WithFields(l, f + g)
  {
    assert l.fields + f + g == l.fields + (f + g);
  }

  /** A logger derived from a new one carries exactly the added fields. */
  lemma DerivedFromNew(ctx: Context, sink: Sink, f: seq<ZapField>)
    ensures New(ctx, Success(sink)).Success?
    ensures WithFields(New(ctx, Success(sink)).value, f).fields == f
  {
  }
}

/**
 * The value model shared by the generic layer and every backend: the
 * nullable wrapper `NullValue<T>` and the closed ten-way union `Value`.
 */
module Values {
  import opened Native
  import opened Decimal

  /** A C++ `double`, kept as its 64-bit IEEE-754 pattern; its arithmetic is not modelled. */
  datatype Float64 = Float64(bits: uint64)

  /** A C++ `std::tm`. */
  datatype Tm = Tm(sec: int32, min: int32, hour: int32, mday: int32, mon: int32,
                   year: int32, wday: int32, yday: int32, isdst: int32)

  /**
   * The state of a `NullValue<T>`: the `is_null_` flag and the payload
   * `data_`.  An absent value still holds a payload, which the non-const
   * `operator*` exposes again.
   */
  datatype NullValue<T> = NullValue(isNull: bool, data: T) {

    /** `operator bool`: true exactly when a value is present. */
    predicate IsPresent() { !isNull }

    /** `nv == nullptr` (either argument order). */
    predicate IsNullptr() { isNull }

    /** The const `operator*`: the payload, whatever the flag says. */
    function Payload(): T { data }
  }

  /** `NullValue(v)`: present, holding `v`. */
  function Present<T>(v: T): (nv: NullValue<T>)
    ensures nv.IsPresent() && !nv.IsNullptr() && nv.Payload() == v
  {
    NullValue(false, v)
  }

  /**
   * The non-const `operator*`: the value is marked present and the payload,
   * whatever it was, is exposed again.
   */
  function MarkedPresent<T>(nv: NullValue<T>): (r: NullValue<T>)
    ensures r.IsPresent() && r.Payload() == nv.Payload()
  {
    NullValue(false, nv.data)
  }

  /** `nv == v`: holds exactly when `nv` is present and holds `v`. */
  predicate EqualsPayload<T(==)>(nv: NullValue<T>, v: T) { !nv.isNull && nv.data == v }

  /** `nv == v` holds exactly when `nv` is the value built by `NullValue(v)`. */
  lemma EqualsPayloadIsPresent<T>(nv: NullValue<T>, v: T)
    ensures EqualsPayload(nv, v) <==> nv == Present(v)
    ensures nv.isNull ==> !EqualsPayload(nv, v)
  {
  }

  /** The distinguished empty payloads written by default construction. */
  const ZERO_TM: Tm := Tm(0, 0, 0, 0, 0, 0, 0, 0, 0)
  const ZERO_DOUBLE: Float64 := Float64(0)

  /** `NullInt64()` and friends: default-constructed, hence absent. */
  const ABSENT_INT64: NullValue<int64> := NullValue(true, 0)
  const ABSENT_UINT64: NullValue<uint64> := NullValue(true, 0)
  const ABSENT_DOUBLE: NullValue<Float64> := NullValue(true, ZERO_DOUBLE)
  const ABSENT_STRING: NullValue<string> := NullValue(true, "")
  const ABSENT_TM: NullValue<Tm> := NullValue(true, ZERO_TM)

  /** `Value`: int64, uint64, double, string, tm, and the nullable form of each. */
  datatype Value =
    | Int64(i: int64)
    | UInt64(u: uint64)
    | Double(d: Float64)
    | Str(s: string)
    | TmVal(t: Tm)
    | NullInt64(ni: NullValue<int64>)
    | NullUInt64(nu: NullValue<uint64>)
    | NullDouble(nd: NullValue<Float64>)
    | NullString(ns: NullValue<string>)
    | NullTm(nt: NullValue<Tm>)

  predicate IsNullable(v: Value) {
    v.NullInt64? || v.NullUInt64? || v.NullDouble? || v.NullString? || v.NullTm?
  }

  /** Whether a value stands for SQL NULL: only an absent nullable does. */
  predicate IsSqlNull(v: Value) {
    match v
    case NullInt64(n) => n.isNull
    case NullUInt64(n) => n.isNull
    case NullDouble(n) => n.isNull
    case NullString(n) => n.isNull
    case NullTm(n) => n.isNull
    case _ => false
  }

  /**
   * How `double` and `std::tm` are printed (`operator<<` on double and the
   * `put_time` "%FT%T%z" formatter); both are outside this model, so they are
   * passed in.
   */
  datatype Printers = Printers(double: Float64 -> string, tm: Tm -> string)

  /** `operator<<(NullValue)`: "null" when absent, the payload otherwise. */
  function FormatNull<T>(nv: NullValue<T>, show: T -> string): (r: string)
    ensures nv.isNull ==> r == "null"
    ensures !nv.isNull ==> r == show(nv.data)
  {
    if nv.isNull then "null" else show(nv.data)
  }

  function ShowInt64(i: int64): string { IntToString(i) }
  function ShowUInt64(u: uint64): string { IntToString(u) }
  function ShowString(s: string): string { s }

  /** `operator<<(Value)`: print the active alternative. */
  function FormatValue(v: Value, p: Printers): string {
    match v
    case Int64(i) => ShowInt64(i)
    case UInt64(u) => ShowUInt64(u)
    case Double(d) => p.double(d)
    case Str(s) => s
    case TmVal(t) => p.tm(t)
    case NullInt64(n) => FormatNull(n, ShowInt64)
    case NullUInt64(n) => FormatNull(n, ShowUInt64)
    case NullDouble(n) => FormatNull(n, p.double)
    case NullString(n) => FormatNull(n, ShowString)
    case NullTm(n) => FormatNull(n, p.tm)
  }

  /**
   * A nullable integer prints as "null" exactly when it is absent: no
   * decimal number reads "null".
   */
  lemma NullIntegerFormat(v: Value, p: Printers)
    requires v.NullInt64? || v.NullUInt64?
    ensures FormatValue(v, p) == "null" <==> IsSqlNull(v)
  {
    var r := FormatValue(v, p);
    if !IsSqlNull(v) {
      assert r[0] != 'n';
    }
  }

  /** Each element printed in turn. */
  function FormatAll(values: seq<Value>, p: Printers): (r: seq<string>)
    ensures |r| == |values|
    ensures forall i :: 0 <= i < |values| ==> r[i] == FormatValue(values[i], p)
    decreases |values|
  {
    if |values| == 0 then [] else FormatAll(values[..|values| - 1], p) + [FormatValue(values[|values| - 1], p)]
  }

  /** Parts joined by ", ". */
  function Joined(parts: seq<string>): string
    decreases |parts|
  {
    if |parts| == 0 then ""
    else if |parts| == 1 then parts[0]
    else Joined(parts[..|parts| - 1]) + ", " + parts[|parts| - 1]
  }

  /** `operator<<(vector<Value>)`, as a specification. */
  function ListText(values: seq<Value>, p: Printers): string {
    "[" + Joined(FormatAll(values, p)) + "]"
  }

  /** An empty list prints "[]", a single value prints inside brackets alone. */
  lemma ListTextShort(v: Value, p: Printers)
    ensures ListText([], p) == "[]"
    ensures ListText([v], p) == "[" + FormatValue(v, p) + "]"
  {
    assert FormatAll([v], p) == [FormatValue(v, p)];
  }

  /** One more value adds exactly ", " and its text before the closing bracket. */
  lemma {:induction false} ListTextAppend(values: seq<Value>, v: Value, p: Printers)
    requires |values| > 0
    ensures ListText(values + [v], p)
         == "[" + Joined(FormatAll(values, p)) + ", " + FormatValue(v, p) + "]"
  {
    var all := FormatAll(values + [v], p);
    assert all[..|all| - 1] == FormatAll(values, p);
  }

  /**
   * The list printer: an index loop that writes each value and, after every
   * value except the last, the separator ", ".
   */
  method PrintValues(values: seq<Value>, p: Printers) returns (out: string)
    ensures out == ListText(values, p)
  {
    ghost var parts := FormatAll(values, p);
    out := "[";
    var i := 0;
    while i < |values|
      invariant 0 <= i <= |values|
      invariant out == "[" + Joined(parts[..i]) + (if 0 < i < |values| then ", " else "")
    {
      ghost var before := out;
      out := out + FormatValue(values[i], p);
      assert parts[..i + 1][..i] == parts[..i];
      assert Joined(parts[..i + 1]) == if i == 0 then parts[i] else Joined(parts[..i]) + ", " + parts[i];
      assert out == "[" + Joined(parts[..i + 1]);
      if i < |values| - 1 {
        out := out + ", ";
      }
      i := i + 1;
    }
    assert parts[..|values|] == parts;
    out := out + "]";
  }

  /**
   * A mutable `NullValue<T>`: the operators that update the object in place
   * (`operator=` and the non-const `operator*`).  The read-only operators are
   * those of the datatype, applied to `Snapshot()`.
   */
  class NullCell<T(0)> {
    var isNull: bool
    var data: T

    function Snapshot(): NullValue<T>
      reads this
    {
      NullValue(isNull, data)
    }

    /** `NullValue()`: absent; the payload is left unspecified. */
    constructor ()
      ensures isNull && !Snapshot().IsPresent() && Snapshot().IsNullptr()
    {
      isNull := true;
    }

    /** `NullValue(v)`. */
    constructor FromValue(v: T)
      ensures Snapshot() == Present(v)
    {
      isNull, data := false, v;
    }

    /** `nv = v`: the value becomes present with payload `v`. */
    method Assign(v: T)
      modifies this
      ensures Snapshot() == Present(v)
    {
      data := v;
      isNull := false;
    }

    /** The non-const `operator*`: marks the value present, keeps the payload. */
    method Deref() returns (d: T)
      modifies this
      ensures Snapshot() == MarkedPresent(old(Snapshot())) && d == data
    {
      isNull := false;
      d := data;
    }
  }
}

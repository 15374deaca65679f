/**
 * The read side of the MySQL backend's statement layer: the output buffer
 * allocated for each result column, and how one fetched column is copied
 * into a caller's `Value` slot by `Rows.Scan`.
 */
module ResultBinds {
  import opened Wrappers
  import opened Native
  import opened Values
  import opened Errors

  /** The client library's column and buffer types (`enum_field_types`). */
  datatype FieldType =
    | TypeDecimal | TypeTiny | TypeShort | TypeLong | TypeFloat | TypeDouble
    | TypeNull | TypeTimestamp | TypeLongLong | TypeInt24 | TypeDate | TypeTime
    | TypeDateTime | TypeYear | TypeNewDate | TypeVarChar | TypeBit
    | TypeTimestamp2 | TypeDateTime2 | TypeTime2 | TypeJson | TypeNewDecimal
    | TypeEnum | TypeSet | TypeTinyBlob | TypeMediumBlob | TypeLongBlob
    | TypeBlob | TypeVarString | TypeString | TypeGeometry

  /** Result metadata of one column: its name, its type and its maximum width. */
  datatype Field = Field(name: string, fieldType: FieldType, length: nat)

  /** Column types received into a 64-bit integer buffer. */
  predicate IsIntegerType(t: FieldType) {
    t == TypeDecimal || t == TypeTiny || t == TypeShort || t == TypeLong
    || t == TypeInt24 || t == TypeLongLong
  }

  /** Column types received into a double buffer. */
  predicate IsFloatType(t: FieldType) { t == TypeFloat || t == TypeDouble }

  /** The memory a result bind points at: an `int64_t`, a `double` or a `char` array. */
  datatype ResultBuffer = IntCell(x: int64) | DoubleCell(d: Float64) | CharCells(chars: string)

  /**
   * One output `MYSQL_BIND`: the buffer type, the buffer and its size, and
   * the three cells the library writes on every fetch (`*is_null`,
   * `*length`, `*error`).
   */
  datatype ResultBind = ResultBind(bufferType: FieldType, buffer: ResultBuffer, bufferLength: nat,
                                   isNull: bool, length: nat, error: bool)

  /**
   * A bind whose buffer is of the kind its buffer type names, and whose
   * reported length fits the character buffer.
   */
  predicate Readable(b: ResultBind) {
    match b.buffer
    case IntCell(_) => b.bufferType == TypeLongLong
    case DoubleCell(_) => b.bufferType == TypeDouble
    case CharCells(chars) => b.bufferType == TypeString && |chars| == b.bufferLength && b.length <= b.bufferLength
  }

  /** A fresh `char[n]`; its content is indeterminate and modelled as zeros. */
  function Zeros(n: nat): (s: string)
    ensures |s| == n
  {
    seq(n, _ => 0 as char)
  }

  /**
   * `AllocateResultBind`: integer columns are read as LONGLONG into an
   * 8-byte integer, floating columns as DOUBLE, and every other column as
   * STRING into a buffer of the column's width.  These three are the only
   * buffer types the release routine knows how to free.
   */
  function AllocateResultBind(field: Field): (b: ResultBind)
    ensures Readable(b) && !b.isNull && b.length == 0 && !b.error
    ensures b.bufferType == TypeLongLong <==> IsIntegerType(field.fieldType)
    ensures b.bufferType == TypeDouble <==> IsFloatType(field.fieldType)
    ensures b.bufferType == TypeLongLong || b.bufferType == TypeDouble || b.bufferType == TypeString
    ensures b.bufferType == TypeString ==> b.bufferLength == field.length
  {
    if IsIntegerType(field.fieldType) then ResultBind(TypeLongLong, IntCell(0), 8, false, 0, false)
    else if IsFloatType(field.fieldType) then ResultBind(TypeDouble, DoubleCell(ZERO_DOUBLE), 8, false, 0, false)
    else ResultBind(TypeString, CharCells(Zeros(field.length)), field.length, false, 0, false)
  }

  /**
   * `NullValueFromBind`: the absent value a NULL column becomes, chosen by
   * the buffer type alone.
   */
  function NullValueFromBind(b: ResultBind): (v: Value)
    ensures IsNullable(v) && IsSqlNull(v)
    ensures v.NullInt64? <==> b.bufferType == TypeLongLong
    ensures v.NullDouble? <==> b.bufferType == TypeDouble
    ensures v.NullString? <==> b.bufferType != TypeLongLong && b.bufferType != TypeDouble
  {
    if b.bufferType == TypeLongLong then NullInt64(ABSENT_INT64)
    else if b.bufferType == TypeDouble then NullDouble(ABSENT_DOUBLE)
    else NullString(ABSENT_STRING)
  }

  /** The error code of every conversion failure while scanning. */
  const BIND_ERROR_CODE: int32 := 400

  /** `BindTo(int64_t&)`. */
  function ReadInt64(b: ResultBind): (r: Result<int64, Exception>)
    requires Readable(b)
    ensures r.Success? <==> !b.isNull && b.bufferType == TypeLongLong
    ensures r.Success? ==> b.buffer == IntCell(r.value)
    ensures r.Failure? ==> r.error.code == BIND_ERROR_CODE
  {
    if b.isNull then Failure(Exception(BIND_ERROR_CODE, "can't bind null to int64_t"))
    else if b.bufferType != TypeLongLong then Failure(Exception(BIND_ERROR_CODE, "can't bind to int64_t"))
    else Success(b.buffer.x)
  }

  /** `BindTo(uint64_t&)`: the same eight bytes, read as unsigned. */
  function ReadUInt64(b: ResultBind): (r: Result<uint64, Exception>)
    requires Readable(b)
    ensures r.Success? <==> !b.isNull && b.bufferType == TypeLongLong
    ensures r.Success? ==> b.buffer == IntCell(ToInt64(r.value))
    ensures r.Failure? ==> r.error.code == BIND_ERROR_CODE
  {
    if b.isNull then Failure(Exception(BIND_ERROR_CODE, "can't bind null to uint64_t"))
    else if b.bufferType != TypeLongLong then Failure(Exception(BIND_ERROR_CODE, "can't bind to uint64_t"))
    else SignednessRoundTrip(b.buffer.x, 0); Success(ToUInt64(b.buffer.x))
  }

  /** `BindTo(double&)`; the type-mismatch message is spelled as in the source. */
  function ReadDouble(b: ResultBind): (r: Result<Float64, Exception>)
    requires Readable(b)
    ensures r.Success? <==> !b.isNull && b.bufferType == TypeDouble
    ensures r.Success? ==> b.buffer == DoubleCell(r.value)
    ensures r.Failure? ==> r.error.code == BIND_ERROR_CODE
  {
    if b.isNull then Failure(Exception(BIND_ERROR_CODE, "can't bind null to double"))
    else if b.bufferType != TypeDouble then Failure(Exception(BIND_ERROR_CODE, "can't bind to doublue"))
    else Success(b.buffer.d)
  }

  /** `BindTo(std::string&)`: the first `*length` characters of the buffer. */
  function ReadString(b: ResultBind): (r: Result<string, Exception>)
    requires Readable(b)
    ensures r.Success? <==> !b.isNull && b.bufferType == TypeString
    ensures r.Success? ==> |r.value| == b.length && r.value <= b.buffer.chars
    ensures r.Failure? ==> r.error.code == BIND_ERROR_CODE
  {
    if b.isNull then Failure(Exception(BIND_ERROR_CODE, "can't bind null to string"))
    else if b.bufferType != TypeString then Failure(Exception(BIND_ERROR_CODE, "can't bind to string"))
    else Success(b.buffer.chars[..b.length])
  }

  /** Text of exactly this length is all `BindTo(std::tm&)` will parse ("YYYY-MM-DD hh:mm:ss"). */
  const DATETIME_TEXT_LENGTH: nat := 19

  /**
   * `BindTo(std::tm&)`: a 19-character STRING column handed to the
   * "%Y-%m-%d %T" parser, which is outside the model and passed in.
   */
  function ReadTm(b: ResultBind, parseTime: string -> Tm): (r: Result<Tm, Exception>)
    requires Readable(b)
    ensures r.Success? <==> !b.isNull && b.bufferType == TypeString && b.length == DATETIME_TEXT_LENGTH
    ensures r.Success? ==> r.value == parseTime(b.buffer.chars[..DATETIME_TEXT_LENGTH])
    ensures r.Failure? ==> r.error.code == BIND_ERROR_CODE
  {
    if b.isNull then Failure(Exception(BIND_ERROR_CODE, "can't bind null to tm"))
    else if b.bufferType != TypeString then Failure(Exception(BIND_ERROR_CODE, "can't bind to tm"))
    else if b.length != DATETIME_TEXT_LENGTH then Failure(Exception(BIND_ERROR_CODE, "can't bind to tm"))
    else Success(parseTime(b.buffer.chars[..DATETIME_TEXT_LENGTH]))
  }

  /** A slot after `BindToValue`: its new content, and whether the call threw. */
  datatype SlotResult = SlotResult(value: Value, outcome: Outcome<Exception>)

  /** A read either stores its result in the slot, or throws and leaves `kept` behind. */
  function Store<T>(read: Result<T, Exception>, wrap: T -> Value, kept: Value): (r: SlotResult)
    ensures r.outcome.Pass? <==> read.Success?
    ensures read.Success? ==> r.value == wrap(read.value)
    ensures read.Failure? ==> r == SlotResult(kept, Fail(read.error))
  {
    match read
    case Success(x) => SlotResult(wrap(x), Pass)
    case Failure(e) => SlotResult(kept, Fail(e))
  }

  /**
   * A slot after the non-const `operator*` of its nullable has run
   * (`MarkedPresent`); other alternatives are unchanged.
   */
  function Touched(v: Value): (r: Value)
    ensures SameAlternative(r, v) && !IsSqlNull(r)
    ensures !IsNullable(v) ==> r == v
    ensures v.NullInt64? ==> r.NullInt64? && r.ni.Payload() == v.ni.Payload()
    ensures v.NullUInt64? ==> r.NullUInt64? && r.nu.Payload() == v.nu.Payload()
    ensures v.NullDouble? ==> r.NullDouble? && r.nd.Payload() == v.nd.Payload()
    ensures v.NullString? ==> r.NullString? && r.ns.Payload() == v.ns.Payload()
    ensures v.NullTm? ==> r.NullTm? && r.nt.Payload() == v.nt.Payload()
  {
    match v
    case NullInt64(n) => NullInt64(MarkedPresent(n))
    case NullUInt64(n) => NullUInt64(MarkedPresent(n))
    case NullDouble(n) => NullDouble(MarkedPresent(n))
    case NullString(n) => NullString(MarkedPresent(n))
    case NullTm(n) => NullTm(MarkedPresent(n))
    case _ => v
  }

  /** Whether two values are the same alternative of `Value`. */
  predicate SameAlternative(a: Value, b: Value) {
    (a.Int64? && b.Int64?) || (a.UInt64? && b.UInt64?) || (a.Double? && b.Double?)
    || (a.Str? && b.Str?) || (a.TmVal? && b.TmVal?) || (a.NullInt64? && b.NullInt64?)
    || (a.NullUInt64? && b.NullUInt64?) || (a.NullDouble? && b.NullDouble?)
    || (a.NullString? && b.NullString?) || (a.NullTm? && b.NullTm?)
  }

  /**
   * `BindToValue`: the slot's alternative picks the reader.  A nullable slot
   * with a NULL column becomes `NullValueFromBind`; a nullable slot whose
   * read fails keeps its payload but has already been marked present.
   */
  function BindToValue(b: ResultBind, v: Value, parseTime: string -> Tm): SlotResult
    requires Readable(b)
  {
    if b.isNull && IsNullable(v) then SlotResult(NullValueFromBind(b), Pass)
    else match v
      case Int64(_) => Store(ReadInt64(b), x => Int64(x), v)
      case UInt64(_) => Store(ReadUInt64(b), x => UInt64(x), v)
      case Double(_) => Store(ReadDouble(b), x => Double(x), v)
      case Str(_) => Store(ReadString(b), x => Str(x), v)
      case TmVal(_) => Store(ReadTm(b, parseTime), x => TmVal(x), v)
      case NullInt64(_) => Store(ReadInt64(b), x => NullInt64(Present(x)), Touched(v))
      case NullUInt64(_) => Store(ReadUInt64(b), x => NullUInt64(Present(x)), Touched(v))
      case NullDouble(_) => Store(ReadDouble(b), x => NullDouble(Present(x)), Touched(v))
      case NullString(_) => Store(ReadString(b), x => NullString(Present(x)), Touched(v))
      case NullTm(_) => Store(ReadTm(b, parseTime), x => NullTm(Present(x)), Touched(v))
  }

  /**
   * What one slot can become: a NULL column fails exactly the non-nullable
   * slots and turns a nullable one into `NullValueFromBind`; a failing read
   * throws code 400 and leaves the slot touched; a successful read of a
   * present column keeps the slot's alternative and makes it present.
   */
  lemma BindToValueOutcomes(b: ResultBind, v: Value, parseTime: string -> Tm)
    requires Readable(b)
    ensures b.isNull ==> (BindToValue(b, v, parseTime).outcome.Pass? <==> IsNullable(v))
    ensures b.isNull && IsNullable(v) ==> BindToValue(b, v, parseTime).value == NullValueFromBind(b)
    ensures BindToValue(b, v, parseTime).outcome.Fail? ==>
              BindToValue(b, v, parseTime).outcome.error.code == BIND_ERROR_CODE
              && BindToValue(b, v, parseTime).value == Touched(v)
    ensures BindToValue(b, v, parseTime).outcome.Pass? && !b.isNull ==>
              SameAlternative(BindToValue(b, v, parseTime).value, v) && !IsSqlNull(BindToValue(b, v, parseTime).value)
  {
  }

  /**
   * Which slot alternatives a present column of buffer type `t` and length
   * `length` can be read into.
   */
  predicate Accepts(t: FieldType, length: nat, v: Value) {
    ((v.Int64? || v.UInt64? || v.NullInt64? || v.NullUInt64?) && t == TypeLongLong)
    || ((v.Double? || v.NullDouble?) && t == TypeDouble)
    || ((v.Str? || v.NullString?) && t == TypeString)
    || ((v.TmVal? || v.NullTm?) && t == TypeString && length == DATETIME_TEXT_LENGTH)
  }

  /** A present column scans without error exactly when the slot accepts its buffer type. */
  lemma ScanSucceedsIffAccepted(b: ResultBind, v: Value, parseTime: string -> Tm)
    requires Readable(b) && !b.isNull
    ensures BindToValue(b, v, parseTime).outcome.Pass? <==> Accepts(b.bufferType, b.length, v)
  {
  }

  /**
   * A NULL column never fails a nullable slot, but the slot keeps its
   * alternative only when `NullValueFromBind` happens to pick the same one:
   * a NULL read into a `NullUInt64` or a `NullTm` slot always changes the
   * slot's alternative.
   */
  lemma NullScanAlternative(b: ResultBind, v: Value, parseTime: string -> Tm)
    requires Readable(b) && b.isNull && IsNullable(v)
    ensures SameAlternative(BindToValue(b, v, parseTime).value, v)
        <==> ((v.NullInt64? && b.bufferType == TypeLongLong)
              || (v.NullDouble? && b.bufferType == TypeDouble)
              || (v.NullString? && b.bufferType != TypeLongLong && b.bufferType != TypeDouble))
    ensures v.NullUInt64? || v.NullTm? ==> !SameAlternative(BindToValue(b, v, parseTime).value, v)
  {
  }

  /**
   * The bind the library fills for a column that holds `v`: integers in
   * the 8-byte integer buffer (a `uint64_t` by its bytes), doubles in the
   * double buffer, text in a buffer of its own length, SQL NULL as the flag.
   */
  function ColumnOf(v: Value): (b: ResultBind)
    requires !v.TmVal? && !v.NullTm?
    ensures Readable(b)
    ensures b.isNull <==> IsSqlNull(v)
  {
    match v
    case Int64(i) => ResultBind(TypeLongLong, IntCell(i), 8, false, 0, false)
    case UInt64(u) => ResultBind(TypeLongLong, IntCell(ToInt64(u)), 8, false, 0, false)
    case Double(d) => ResultBind(TypeDouble, DoubleCell(d), 8, false, 0, false)
    case Str(s) => ResultBind(TypeString, CharCells(s), |s|, false, |s|, false)
    case NullInt64(n) => ResultBind(TypeLongLong, IntCell(n.data), 8, n.isNull, 0, false)
    case NullUInt64(n) => ResultBind(TypeLongLong, IntCell(ToInt64(n.data)), 8, n.isNull, 0, false)
    case NullDouble(n) => ResultBind(TypeDouble, DoubleCell(n.data), 8, n.isNull, 0, false)
    case NullString(n) => ResultBind(TypeString, CharCells(n.data), |n.data|, n.isNull, |n.data|, false)
  }

  /**
   * Scanning a column into a slot of the alternative it was written from
   * gives the value back; an absent value comes back absent.
   */
  lemma ScanRoundTrip(v: Value, slot: Value, parseTime: string -> Tm)
    requires !v.TmVal? && !v.NullTm? && SameAlternative(v, slot)
    ensures BindToValue(ColumnOf(v), slot, parseTime).outcome.Pass?
    ensures !IsSqlNull(v) ==> BindToValue(ColumnOf(v), slot, parseTime).value == v
    ensures IsSqlNull(v) ==> IsSqlNull(BindToValue(ColumnOf(v), slot, parseTime).value)
  {
    match v
    case UInt64(u) => SignednessRoundTrip(0, u);
    case NullUInt64(n) => SignednessRoundTrip(0, n.data);
    case Str(s) => assert s[..|s|] == s;
    case NullString(n) => assert n.data[..|n.data|] == n.data;
    case _ =>
  }

  /** The slots of a row after `Scan`, and whether it threw. */
  datatype ScanResult = ScanResult(values: seq<Value>, outcome: Outcome<Exception>)

  predicate AllReadable(bs: seq<ResultBind>) { forall i :: 0 <= i < |bs| ==> Readable(bs[i]) }

  /** What `BindToValue` would make of each slot on its own. */
  function Steps(bs: seq<ResultBind>, vs: seq<Value>, parseTime: string -> Tm): (r: seq<SlotResult>)
    requires |bs| == |vs| && AllReadable(bs)
    ensures |r| == |bs|
    ensures forall i :: 0 <= i < |bs| ==> r[i] == BindToValue(bs[i], vs[i], parseTime)
    decreases |bs|
  {
    if |bs| == 0 then []
    else
      var n := |bs| - 1;
      Steps(bs[..n], vs[..n], parseTime) + [BindToValue(bs[n], vs[n], parseTime)]
  }

  /**
   * The slot loop: each slot in turn takes its own result, until the first
   * failure, after which every later slot keeps its old content.
   */
  function Run(steps: seq<SlotResult>, vs: seq<Value>): (r: ScanResult)
    requires |steps| == |vs|
    ensures |r.values| == |vs|
    decreases |vs|
  {
    if |vs| == 0 then ScanResult([], Pass)
    else
      var n := |vs| - 1;
      var before := Run(steps[..n], vs[..n]);
      if before.outcome.Fail? then ScanResult(before.values + [vs[n]], before.outcome)
      else ScanResult(before.values + [steps[n].value], steps[n].outcome)
  }

  /** `Scan` as a specification. */
  function ScanSlots(bs: seq<ResultBind>, vs: seq<Value>, parseTime: string -> Tm): (r: ScanResult)
    requires |bs| == |vs| && AllReadable(bs)
  {
    Run(Steps(bs, vs, parseTime), vs)
  }

  /**
   * The loop completes exactly when every step does, and then each slot
   * holds its own step's value.
   */
  lemma {:induction false} RunPass(steps: seq<SlotResult>, vs: seq<Value>)
    requires |steps| == |vs|
    ensures Run(steps, vs).outcome.Pass? <==> forall i :: 0 <= i < |steps| ==> steps[i].outcome.Pass?
    ensures Run(steps, vs).outcome.Pass? ==> forall i :: 0 <= i < |steps| ==> Run(steps, vs).values[i] == steps[i].value
    decreases |vs|
  {
    if |vs| > 0 {
      var n := |vs| - 1;
      RunPass(steps[..n], vs[..n]);
      assert forall i :: 0 <= i < n ==> steps[..n][i] == steps[i];
    }
  }

  /**
   * When step `k` is the first to fail, the loop throws its error; slots up
   * to `k` hold their step's value and the later ones are untouched.
   */
  lemma {:induction false} RunStops(steps: seq<SlotResult>, vs: seq<Value>, k: nat)
    requires |steps| == |vs| && k < |steps|
    requires forall i :: 0 <= i < k ==> steps[i].outcome.Pass?
    requires steps[k].outcome.Fail?
    ensures Run(steps, vs).outcome == steps[k].outcome
    ensures forall i :: 0 <= i <= k ==> Run(steps, vs).values[i] == steps[i].value
    ensures forall i :: k < i < |steps| ==> Run(steps, vs).values[i] == vs[i]
    decreases |vs|
  {
    var n := |vs| - 1;
    assert forall i :: 0 <= i < n ==> steps[..n][i] == steps[i] && vs[..n][i] == vs[i];
    if n == k {
      RunPass(steps[..n], vs[..n]);
    } else {
      RunStops(steps[..n], vs[..n], k);
    }
  }

  /** One more step of the loop, while no step has failed. */
  lemma RunStep(steps: seq<SlotResult>, vs: seq<Value>, i: nat)
    requires |steps| == |vs| && i < |vs|
    requires Run(steps[..i], vs[..i]).outcome.Pass?
    ensures Run(steps[..i + 1], vs[..i + 1])
         == ScanResult(Run(steps[..i], vs[..i]).values + [steps[i].value], steps[i].outcome)
  {
    assert steps[..i + 1][..i] == steps[..i] && vs[..i + 1][..i] == vs[..i];
  }

  /** Once a prefix of the row has failed, the rest of the row is kept as it was. */
  lemma {:induction false} RunAfterFailure(steps: seq<SlotResult>, vs: seq<Value>, k: nat)
    requires |steps| == |vs| && k <= |vs|
    requires Run(steps[..k], vs[..k]).outcome.Fail?
    ensures Run(steps, vs) == ScanResult(Run(steps[..k], vs[..k]).values + vs[k..], Run(steps[..k], vs[..k]).outcome)
    decreases |vs|
  {
    if k < |vs| {
      var n := |vs| - 1;
      assert steps[..n][..k] == steps[..k] && vs[..n][..k] == vs[..k];
      RunAfterFailure(steps[..n], vs[..n], k);
      assert vs[k..] == vs[..n][k..] + [vs[n]];
    } else {
      assert steps[..k] == steps && vs[..k] == vs;
    }
  }

  /**
   * A row scans without error exactly when every slot's own `BindToValue`
   * does, and then each slot holds what that call made of it.
   */
  lemma ScanSlotsPass(bs: seq<ResultBind>, vs: seq<Value>, parseTime: string -> Tm)
    requires |bs| == |vs| && AllReadable(bs)
    ensures ScanSlots(bs, vs, parseTime).outcome.Pass?
        <==> forall i :: 0 <= i < |bs| ==> BindToValue(bs[i], vs[i], parseTime).outcome.Pass?
    ensures ScanSlots(bs, vs, parseTime).outcome.Pass? ==>
              forall i :: 0 <= i < |bs| ==> ScanSlots(bs, vs, parseTime).values[i] == BindToValue(bs[i], vs[i], parseTime).value
  {
    RunPass(Steps(bs, vs, parseTime), vs);
  }

  /**
   * When slot `k` is the first to fail, `Scan` throws its error; slots up to
   * `k` hold what `BindToValue` made of them and the later ones are untouched.
   */
  lemma ScanSlotsStops(bs: seq<ResultBind>, vs: seq<Value>, parseTime: string -> Tm, k: nat)
    requires |bs| == |vs| && AllReadable(bs) && k < |bs|
    requires forall i :: 0 <= i < k ==> BindToValue(bs[i], vs[i], parseTime).outcome.Pass?
    requires BindToValue(bs[k], vs[k], parseTime).outcome.Fail?
    ensures ScanSlots(bs, vs, parseTime).outcome == BindToValue(bs[k], vs[k], parseTime).outcome
    ensures forall i :: 0 <= i <= k ==> ScanSlots(bs, vs, parseTime).values[i] == BindToValue(bs[i], vs[i], parseTime).value
    ensures forall i :: k < i < |bs| ==> ScanSlots(bs, vs, parseTime).values[i] == vs[i]
  {
    RunStops(Steps(bs, vs, parseTime), vs, k);
  }
}

/**
 * The write side of the MySQL backend's statement layer: how each argument
 * `Value` is described to the client library as an input `MYSQL_BIND`, and
 * what the server then receives.
 */
module ParamBinds {
  import opened Native
  import opened Values
  import opened ResultBinds

  /** `enum_mysql_timestamp_type`. */
  datatype TimestampType = TimestampNone | TimestampError | TimestampDate | TimestampDateTime | TimestampTime

  /** The client library's `MYSQL_TIME`. */
  datatype MySQLTime = MySQLTime(year: uint32, month: uint32, day: uint32, hour: uint32, minute: uint32,
                                 second: uint32, secondPart: uint64, neg: bool, timeType: TimestampType)

  /**
   * `StdTmToMySQLTm`: a zeroed `MYSQL_TIME` holding the calendar fields of
   * the `std::tm` (month counted from 1, year from 0), marked DATETIME.
   * Each field is converted to `unsigned int`, wrapping a negative one.
   */
  function StdTmToMySQLTm(t: Tm): (m: MySQLTime)
    ensures m.secondPart == 0 && !m.neg && m.timeType == TimestampDateTime
  {
    MySQLTime(WrapUInt32(t.year as int + 1900), WrapUInt32(t.mon as int + 1), WrapUInt32(t.mday),
              WrapUInt32(t.hour), WrapUInt32(t.min), WrapUInt32(t.sec), 0, false, TimestampDateTime)
  }

  /** A `std::tm` whose calendar fields are within the ranges the C library documents. */
  predicate InCalendarRange(t: Tm) {
    0 <= t.sec <= 60 && 0 <= t.min <= 59 && 0 <= t.hour <= 23 && 1 <= t.mday <= 31
    && 0 <= t.mon <= 11 && -1900 <= t.year
  }

  /** A `MYSQL_TIME` whose fields fit the `int` fields of a `std::tm`. */
  predicate FitsTm(m: MySQLTime) {
    m.year < TWO_31 + 1900 && 1 <= m.month <= TWO_31 && m.day < TWO_31 && m.hour < TWO_31
    && m.minute < TWO_31 && m.second < TWO_31
  }

  /** Reading a `MYSQL_TIME` back as a `std::tm`; the derived fields are left zero. */
  function TmOfMySQLTime(m: MySQLTime): Tm
    requires FitsTm(m)
  {
    Tm(m.second, m.minute, m.hour, m.day, m.month - 1, m.year - 1900, 0, 0, 0)
  }

  /**
   * Within the calendar ranges the conversion loses nothing but the
   * derived fields `tm_wday`, `tm_yday` and `tm_isdst`.
   */
  lemma TmRoundTrip(t: Tm)
    requires InCalendarRange(t)
    ensures FitsTm(StdTmToMySQLTm(t))
    ensures TmOfMySQLTime(StdTmToMySQLTm(t)) == t.(wday := 0, yday := 0, isdst := 0)
  {
  }

  /** The memory an input bind points at. */
  datatype ParamBuffer = NoBuffer | Word(bits: uint64) | Chars(s: string) | Time(t: MySQLTime)

  /**
   * One input `MYSQL_BIND`: the buffer type, the buffer (a string's length
   * is its `buffer_length`), `is_unsigned` and `is_null_value`.
   */
  datatype ParamBind = ParamBind(bufferType: FieldType, buffer: ParamBuffer, isUnsigned: bool, isNullValue: bool)

  /** A bind cleared with `memset(0)`: buffer type 0 is DECIMAL, and there is no buffer. */
  const ZERO_PARAM: ParamBind := ParamBind(TypeDecimal, NoBuffer, false, false)

  /**
   * `BindValue(const Value&, MYSQL_BIND*)` as written: a `uint64_t` is
   * described as a DOUBLE, so its eight bytes are read as an IEEE double.
   */
  function BindValueAsWritten(v: Value): (b: ParamBind)
    ensures !v.UInt64? ==> b == BindValue(v)
  {
    match v
    case UInt64(u) => ParamBind(TypeDouble, Word(u), true, false)
    case _ => BindValue(v)
  }

  /**
   * `BindValue(const Value&, MYSQL_BIND*)` with a `uint64_t` described as
   * an unsigned LONGLONG, as the nullable form `NullUInt64` already is.
   * Integers are passed by their bytes, doubles by their bit pattern,
   * strings by their characters, `std::tm` as a fresh DATETIME.
   */
  function BindValue(v: Value): (b: ParamBind)
  {
    match v
    case Int64(i) => ParamBind(TypeLongLong, Word(ToUInt64(i)), false, false)
    case UInt64(u) => ParamBind(TypeLongLong, Word(u), true, false)
    case Double(d) => ParamBind(TypeDouble, Word(d.bits), false, false)
    case Str(s) => ParamBind(TypeString, Chars(s), false, false)
    case TmVal(t) => ParamBind(TypeDateTime, Time(StdTmToMySQLTm(t)), false, false)
    case NullInt64(n) => ParamBind(TypeLongLong, Word(ToUInt64(n.data)), false, n.isNull)
    case NullUInt64(n) => ParamBind(TypeLongLong, Word(n.data), true, n.isNull)
    case NullDouble(n) => ParamBind(TypeDouble, Word(n.data.bits), false, n.isNull)
    case NullString(n) => ParamBind(TypeString, Chars(n.data), false, n.isNull)
    case NullTm(n) => ParamBind(TypeDateTime, Time(StdTmToMySQLTm(n.data)), false, n.isNull)
  }

  /** What the server takes a parameter to be. */
  datatype Received = ReceivedNull | ReceivedInt(n: int) | ReceivedDouble(d: Float64)
                    | ReceivedText(s: string) | ReceivedDateTime(t: MySQLTime) | Unreadable

  /**
   * How the client library reads an input bind: NULL when `is_null_value`
   * is set, otherwise the buffer interpreted by the buffer type (and, for
   * LONGLONG, by `is_unsigned`).
   */
  function Decode(b: ParamBind): Received {
    if b.isNullValue then ReceivedNull
    else match (b.bufferType, b.buffer)
      case (TypeLongLong, Word(w)) => ReceivedInt(if b.isUnsigned then w else ToInt64(w))
      case (TypeDouble, Word(w)) => ReceivedDouble(Float64(w))
      case (TypeString, Chars(s)) => ReceivedText(s)
      case (TypeDateTime, Time(t)) => ReceivedDateTime(t)
      case _ => Unreadable
  }

  /** What a caller passing `v` means the server to receive. */
  function Expected(v: Value): Received {
    match v
    case Int64(i) => ReceivedInt(i)
    case UInt64(u) => ReceivedInt(u)
    case Double(d) => ReceivedDouble(d)
    case Str(s) => ReceivedText(s)
    case TmVal(t) => ReceivedDateTime(StdTmToMySQLTm(t))
    case NullInt64(n) => if n.isNull then ReceivedNull else ReceivedInt(n.data)
    case NullUInt64(n) => if n.isNull then ReceivedNull else ReceivedInt(n.data)
    case NullDouble(n) => if n.isNull then ReceivedNull else ReceivedDouble(n.data)
    case NullString(n) => if n.isNull then ReceivedNull else ReceivedText(n.data)
    case NullTm(n) => if n.isNull then ReceivedNull else ReceivedDateTime(StdTmToMySQLTm(n.data))
  }

  /**
   * Every argument arrives as meant: the server receives NULL exactly for
   * an absent nullable, and otherwise the argument's own value.
   */
  lemma BindValueDelivers(v: Value)
    ensures Decode(BindValue(v)) == Expected(v)
    ensures Decode(BindValue(v)) == ReceivedNull <==> IsSqlNull(v)
  {
    match v
    case Int64(i) => SignednessRoundTrip(i, 0);
    case NullInt64(n) => SignednessRoundTrip(n.data, 0);
    case _ =>
  }

  /**
   * As written, no `uint64_t` argument arrives as the integer it is: the
   * server receives a double with the integer's bit pattern instead.
   */
  lemma UnsignedArgumentMisdelivered(u: uint64)
    ensures Decode(BindValueAsWritten(UInt64(u))) == ReceivedDouble(Float64(u))
    ensures Decode(BindValueAsWritten(UInt64(u))) != Expected(UInt64(u))
  {
  }

  /** The argument 1 of type `uint64_t` reaches the server as the double 2^-1074. */
  lemma UnsignedOneMisdelivered()
    ensures Decode(BindValueAsWritten(UInt64(1))) == ReceivedDouble(Float64(1))
    ensures Expected(UInt64(1)) == ReceivedInt(1)
  {
  }
}

/**
 * The MySQL backend's prepared statement and result cursor.  Every call
 * into the client library is replaced by the reply it gives: return codes,
 * the handle's error state, the rows it fetches and the counters it keeps.
 */
module Statement {
  import opened Wrappers
  import opened Native
  import opened Values
  import opened Errors
  import opened ResultBinds
  import opened ParamBinds

  /** `SQLResult`: the insert id and the affected-row count of one execution. */
  datatype SQLResult = SQLResult(lastInsertId: int64, rowsAffected: int64)

  /** What `mysql_stmt_fetch` returns when the result set is exhausted. */
  const MYSQL_NO_DATA: int := 100

  /** What one fetch writes through a result bind's pointers. */
  datatype Cell = Cell(isNull: bool, buffer: ResultBuffer, length: nat, error: bool)

  /** A cell the library can write into bind `b`: same buffer kind, and a length within the buffer. */
  predicate Fits(c: Cell, b: ResultBind) {
    match c.buffer
    case IntCell(_) => b.buffer.IntCell?
    case DoubleCell(_) => b.buffer.DoubleCell?
    case CharCells(chars) => b.buffer.CharCells? && |chars| == b.bufferLength && c.length <= b.bufferLength
  }

  /** Bind `b` after the library has written cell `c` through it. */
  function Filled(b: ResultBind, c: Cell): (r: ResultBind)
    requires Readable(b) && Fits(c, b)
    ensures Readable(r)
    ensures r.bufferType == b.bufferType && r.bufferLength == b.bufferLength
    ensures r.isNull == c.isNull && r.buffer == c.buffer && r.length == c.length && r.error == c.error
  {
    b.(isNull := c.isNull, buffer := c.buffer, length := c.length, error := c.error)
  }

  /** `SQLRows`: the cursor over the result set of one `Query`. */
  class SQLRows {
    const fields: seq<Field>
    const columns: seq<string>
    const binds: array<ResultBind>

    /**
     * One column name per field, and one readable bind per field whose
     * type and size are those `AllocateResultBind` chose.
     */
    ghost predicate Valid()
      reads this, binds
    {
      |columns| == |fields| && binds.Length == |fields|
      && (forall i :: 0 <= i < |fields| ==> columns[i] == fields[i].name)
      && (forall i :: 0 <= i < |fields| ==>
            Readable(binds[i])
            && binds[i].bufferType == AllocateResultBind(fields[i]).bufferType
            && binds[i].bufferLength == AllocateResultBind(fields[i]).bufferLength)
    }

    /**
     * The constructor up to `mysql_stmt_bind_result`: the column names in
     * order, then a cleared bind array in which every bind is allocated for
     * its field.
     */
    constructor (fields: seq<Field>)
      ensures Valid() && fresh(binds)
      ensures this.fields == fields
      ensures forall i :: 0 <= i < |fields| ==> binds[i] == AllocateResultBind(fields[i])
    {
      var names: seq<string> := [];
      var i := 0;
      while i < |fields|
        invariant 0 <= i <= |fields|
        invariant |names| == i && forall j :: 0 <= j < i ==> names[j] == fields[j].name
      {
        names := names + [fields[i].name];
        i := i + 1;
      }
      var a := AllocateBinds(fields);
      AllocatedReadable(fields, a[..]);
      this.fields := fields;
      columns := names;
      binds := a;
    }

    /**
     * The whole constructor: when `mysql_stmt_bind_result` fails, the
     * statement's error is thrown instead of a cursor being returned.
     */
    static method Open(fields: seq<Field>, bindResultRet: int, stmtError: HandleError)
      returns (r: Result<SQLRows, Exception>)
      requires bindResultRet != 0 ==> stmtError.errno != 0
      ensures r.Success? <==> bindResultRet == 0
      ensures r.Success? ==> fresh(r.value) && fresh(r.value.binds) && r.value.Valid() && r.value.fields == fields
      ensures r.Failure? ==> r.error == ExceptionFrom(stmtError)
    {
      var rows := new SQLRows(fields);
      if bindResultRet != 0 {
        return Failure(ExceptionFrom(stmtError));
      }
      return Success(rows);
    }

    lemma ReadableBinds()
      requires Valid()
      ensures AllReadable(binds[..])
    {
    }

    /** `Columns`: the field names, in result order. */
    function Columns(): (names: seq<string>)
      requires Valid()
      reads this, binds
      ensures |names| == |fields| && forall i :: 0 <= i < |fields| ==> names[i] == fields[i].name
    {
      columns
    }

    /**
     * `Next`, given the code `mysql_stmt_fetch` returns and, on success,
     * the cells it writes: 0 means a row was fetched, `MYSQL_NO_DATA` the
     * end of the result set, and anything else the statement's error.
     */
    method Next(ret: int, cells: seq<Cell>, stmtError: HandleError) returns (r: Result<bool, Exception>)
      requires Valid()
      requires ret == 0 ==> |cells| == binds.Length && forall i :: 0 <= i < |cells| ==> Fits(cells[i], binds[i])
      requires ret != 0 && ret != MYSQL_NO_DATA ==> stmtError.errno != 0
      modifies binds
      ensures Valid()
      ensures ret == 0 ==> r == Success(true)
      ensures ret == 0 ==> forall i :: 0 <= i < binds.Length ==> binds[i] == Filled(old(binds[i]), cells[i])
      ensures ret != 0 ==> binds[..] == old(binds[..])
      ensures ret == MYSQL_NO_DATA ==> r == Success(false)
      ensures ret != 0 && ret != MYSQL_NO_DATA ==> r == Failure(ExceptionFrom(stmtError))
    {
      if ret != 0 {
        if ret == MYSQL_NO_DATA {
          return Success(false);
        }
        return Failure(ExceptionFrom(stmtError));
      }
      // the library's side of the fetch: one cell written through each bind
      forall i | 0 <= i < binds.Length {
        binds[i] := Filled(binds[i], cells[i]);
      }
      return Success(true);
    }

    /**
     * `Scan`: each slot in turn is bound from its column, and the first
     * conversion error is thrown, leaving the later slots untouched.
     */
    method Scan(dest: array<Value>, parseTime: string -> Tm) returns (r: Outcome<Exception>)
      requires Valid() && dest.Length == |fields|
      modifies dest
      ensures ScanSlots(binds[..], old(dest[..]), parseTime) == ScanResult(dest[..], r)
    {
      ReadableBinds();
      r := ScanRow(binds[..], dest, parseTime);
    }
  }

  /**
   * The slot loop of `Scan` over the row's binds: slot `i` is bound from
   * bind `i` until one conversion throws.
   */
  method ScanRow(binds: seq<ResultBind>, dest: array<Value>, parseTime: string -> Tm) returns (r: Outcome<Exception>)
    requires |binds| == dest.Length && AllReadable(binds)
    modifies dest
    ensures ScanSlots(binds, old(dest[..]), parseTime) == ScanResult(dest[..], r)
  {
    ghost var slots := dest[..];
    ghost var steps := Steps(binds, slots, parseTime);
    var i := 0;
    while i < |binds|
      invariant 0 <= i <= |binds|
      invariant Run(steps[..i], slots[..i]) == ScanResult(dest[..i], Pass)
      invariant dest[..] == dest[..i] + slots[i..]
    {
      SlotUntouched(dest[..], slots, i);
      var s := BindToValue(binds[i], dest[i], parseTime);
      ScanStep(steps, slots, dest[..], i, s);
      dest[i] := s.value;
      if s.outcome.Fail? {
        return s.outcome;
      }
      i := i + 1;
    }
    assert steps[..i] == steps && slots[..i] == slots;
    return Pass;
  }

  /** A cleared bind array in which every bind is then allocated for its field. */
  method AllocateBinds(fields: seq<Field>) returns (a: array<ResultBind>)
    ensures fresh(a) && a.Length == |fields|
    ensures forall j :: 0 <= j < |fields| ==> a[j] == AllocateResultBind(fields[j])
  {
    a := new ResultBind[|fields|](_ => ResultBind(TypeDecimal, IntCell(0), 0, false, 0, false));
    var i := 0;
    while i < |fields|
      invariant 0 <= i <= |fields|
      invariant forall j :: 0 <= j < i ==> a[j] == AllocateResultBind(fields[j])
    {
      a[i] := AllocateResultBind(fields[i]);
      i := i + 1;
    }
  }

  /** Binds allocated for their fields are readable, with the allocated type and size. */
  lemma AllocatedReadable(fields: seq<Field>, bs: seq<ResultBind>)
    requires |bs| == |fields| && forall j :: 0 <= j < |fields| ==> bs[j] == AllocateResultBind(fields[j])
    ensures forall j :: 0 <= j < |fields| ==>
              Readable(bs[j]) && bs[j].bufferType == AllocateResultBind(fields[j]).bufferType
              && bs[j].bufferLength == AllocateResultBind(fields[j]).bufferLength
  {
  }

  /** A slot the loop has not reached still holds its old content. */
  lemma SlotUntouched<T>(cur: seq<T>, slots: seq<T>, i: nat)
    requires i < |slots| && |cur| == |slots| && cur == cur[..i] + slots[i..]
    ensures cur[i] == slots[i]
  {
  }

  /**
   * One slot of the loop: overwriting slot `i` with its step's value
   * extends the finished prefix by one, and a failing step ends the loop
   * with the row `Run` describes.
   */
  lemma ScanStep(steps: seq<SlotResult>, slots: seq<Value>, cur: seq<Value>, i: nat, s: SlotResult)
    requires |steps| == |slots| == |cur| && i < |slots|
    requires Run(steps[..i], slots[..i]) == ScanResult(cur[..i], Pass)
    requires cur == cur[..i] + slots[i..] && s == steps[i]
    ensures cur[i := s.value] == cur[i := s.value][..i + 1] + slots[i + 1..]
    ensures Run(steps[..i + 1], slots[..i + 1]) == ScanResult(cur[i := s.value][..i + 1], s.outcome)
    ensures s.outcome.Fail? ==> Run(steps, slots) == ScanResult(cur[i := s.value], s.outcome)
  {
    RunStep(steps, slots, i);
    Advance(cur[..i], slots[i..], s.value);
    assert slots[i..][1..] == slots[i + 1..];
    if s.outcome.Fail? {
      RunAfterFailure(steps, slots, i + 1);
    }
  }

  /** Overwriting the first element after `done` moves it into the finished prefix. */
  lemma Advance<T>(done: seq<T>, rest: seq<T>, v: T)
    requires |rest| > 0
    ensures (done + rest)[|done| := v] == (done + [v]) + rest[1..]
    ensures ((done + [v]) + rest[1..])[..|done| + 1] == done + [v]
  {
  }

  /**
   * `bind_args`: argument `i` is described by bind `i` with the binding as
   * the source writes it (a `uint64_t` as DOUBLE); the later binds stay as they are.
   */
  method BindArgs(args: seq<Value>, binds: array<ParamBind>)
    requires |args| <= binds.Length
    modifies binds
    ensures forall i :: 0 <= i < |args| ==> binds[i] == BindValueAsWritten(args[i])
    ensures forall i :: |args| <= i < binds.Length ==> binds[i] == old(binds[i])
  {
    var i := 0;
    while i < |args|
      invariant 0 <= i <= |args|
      invariant forall j :: 0 <= j < i ==> binds[j] == BindValueAsWritten(args[j])
      invariant forall j :: i <= j < binds.Length ==> binds[j] == old(binds[j])
    {
      binds[i] := BindValueAsWritten(args[i]);
      i := i + 1;
    }
  }

  /** What the client library answers during one `Exec` or `Query`, call by call. */
  datatype Replies = Replies(bindParamRet: int, bindParamError: HandleError,
                             executeRet: int, executeError: HandleError,
                             insertId: uint64, affectedRows: uint64)

  /** Every failing call comes with a non-zero error number. */
  predicate Consistent(rep: Replies) {
    (rep.bindParamRet != 0 ==> rep.bindParamError.errno != 0)
    && (rep.executeRet != 0 ==> rep.executeError.errno != 0)
  }

  /** `MySQLStmt`: one prepared statement with its current parameter binds. */
  class MySQLStmt {
    /** `NumInput`: the parameter count the library reports for the prepared query. */
    const numInput: nat
    var binds: array?<ParamBind>
    var bindSize: nat

    /** A bind array of `numInput` binds in which the arguments are bound in order, as the source binds them. */
    ghost predicate BoundTo(args: seq<Value>)
      reads this, binds
    {
      binds != null && binds.Length == numInput && bindSize == numInput && |args| <= numInput
      && (forall i :: 0 <= i < |args| ==> binds[i] == BindValueAsWritten(args[i]))
      && (forall i :: |args| <= i < numInput ==> binds[i] == ZERO_PARAM)
    }

    constructor (paramCount: nat)
      ensures numInput == paramCount && binds == null && bindSize == 0
    {
      numInput := paramCount;
      binds := null;
      bindSize := 0;
    }

    /**
     * The constructor: `mysql_stmt_init` failing throws the connection's
     * error, `mysql_stmt_prepare` failing throws the statement's.
     */
    static method Prepare(initOk: bool, connError: HandleError, prepareRet: int, stmtError: HandleError,
                          paramCount: nat) returns (r: Result<MySQLStmt, Exception>)
      requires !initOk ==> connError.errno != 0
      requires initOk && prepareRet != 0 ==> stmtError.errno != 0
      ensures !initOk ==> r == Failure(ExceptionFrom(connError))
      ensures initOk && prepareRet != 0 ==> r == Failure(ExceptionFrom(stmtError))
      ensures initOk && prepareRet == 0 ==> r.Success? && fresh(r.value)
      ensures r.Success? ==> r.value.numInput == paramCount && r.value.binds == null && r.value.bindSize == 0
    {
      if !initOk {
        return Failure(ExceptionFrom(connError));
      }
      if prepareRet != 0 {
        return Failure(ExceptionFrom(stmtError));
      }
      var stmt := new MySQLStmt(paramCount);
      return Success(stmt);
    }

    /**
     * `BindValue(const std::vector<Value>&)`: a fresh cleared array of
     * `NumInput()` binds, the arguments bound into its front, then
     * `mysql_stmt_bind_param`, whose failure throws.
     */
    method BindParams(args: seq<Value>, bindParamRet: int, stmtError: HandleError) returns (r: Outcome<Exception>)
      requires 0 < |args| <= numInput
      requires bindParamRet != 0 ==> stmtError.errno != 0
      modifies this
      ensures fresh(binds) && BoundTo(args)
      ensures r == if bindParamRet == 0 then Pass else Fail(ExceptionFrom(stmtError))
    {
      var a := new ParamBind[numInput](_ => ZERO_PARAM);
      BindArgs(args, a);
      binds := a;
      bindSize := numInput;
      if bindParamRet != 0 {
        return Fail(ExceptionFrom(stmtError));
      }
      return Pass;
    }

    /**
     * `Exec`: bind the arguments when there are any, execute, and report
     * the insert id and affected-row count, read as signed 64-bit values.
     */
    method Exec(args: seq<Value>, rep: Replies) returns (r: Result<SQLResult, Exception>)
      requires |args| == numInput && Consistent(rep)
      modifies this
      ensures |args| == 0 ==> binds == old(binds) && bindSize == old(bindSize)
      ensures |args| > 0 ==> fresh(binds) && BoundTo(args)
      ensures |args| > 0 && rep.bindParamRet != 0 ==> r == Failure(ExceptionFrom(rep.bindParamError))
      ensures (|args| == 0 || rep.bindParamRet == 0) && rep.executeRet != 0 ==>
                r == Failure(ExceptionFrom(rep.executeError))
      ensures (|args| == 0 || rep.bindParamRet == 0) && rep.executeRet == 0 ==>
                r == Success(SQLResult(ToInt64(rep.insertId), ToInt64(rep.affectedRows)))
    {
      if |args| > 0 {
        var bound := BindParams(args, rep.bindParamRet, rep.bindParamError);
        if bound.Fail? {
          return Failure(bound.error);
        }
      }
      if rep.executeRet != 0 {
        return Failure(ExceptionFrom(rep.executeError));
      }
      return Success(SQLResult(ToInt64(rep.insertId), ToInt64(rep.affectedRows)));
    }

    /**
     * `Query`: bind the arguments when there are any, execute, and open a
     * cursor over the result set's fields.
     */
    method Query(args: seq<Value>, rep: Replies, fields: seq<Field>, bindResultRet: int, resultError: HandleError)
      returns (r: Result<SQLRows, Exception>)
      requires |args| == numInput && Consistent(rep)
      requires bindResultRet != 0 ==> resultError.errno != 0
      modifies this
      ensures |args| == 0 ==> binds == old(binds) && bindSize == old(bindSize)
      ensures |args| > 0 ==> fresh(binds) && BoundTo(args)
      ensures |args| > 0 && rep.bindParamRet != 0 ==> r == Failure(ExceptionFrom(rep.bindParamError))
      ensures (|args| == 0 || rep.bindParamRet == 0) && rep.executeRet != 0 ==>
                r == Failure(ExceptionFrom(rep.executeError))
      ensures (|args| == 0 || rep.bindParamRet == 0) && rep.executeRet == 0 && bindResultRet != 0 ==>
                r == Failure(ExceptionFrom(resultError))
      ensures (|args| == 0 || rep.bindParamRet == 0) && rep.executeRet == 0 && bindResultRet == 0 ==>
                r.Success? && fresh(r.value) && r.value.Valid() && r.value.fields == fields
    {
      if |args| > 0 {
        var bound := BindParams(args, rep.bindParamRet, rep.bindParamError);
        if bound.Fail? {
          return Failure(bound.error);
        }
      }
      if rep.executeRet != 0 {
        return Failure(ExceptionFrom(rep.executeError));
      }
      r := SQLRows.Open(fields, bindResultRet, resultError);
    }
  }
}

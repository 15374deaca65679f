/**
 * `sqlcc::Exception` and the MySQL backend's conversion of a client
 * handle's error state into one.
 */
module Errors {
  import opened Wrappers
  import opened Native
  import opened Decimal

  /** `sqlcc::Exception`: an integer code and the message `what()` returns. */
  datatype Exception = Exception(code: int32, message: string) {
    function What(): string { message }
  }

  /**
   * What the client library reports for a statement or connection handle:
   * `mysql_stmt_errno` / `mysql_errno`, the SQLSTATE and the error text.
   */
  datatype HandleError = HandleError(errno: uint32, sqlstate: string, error: string)

  const MESSAGE_HEAD: string := "Error("

  /** What follows the code's digits: `)  [<sqlstate>] '<error>'`. */
  function MessageTail(sqlstate: string, error: string): string {
    ")  [" + sqlstate + "] '" + error + "'"
  }

  /**
   * `bind_error_msg`: `Error(<code>)  [<sqlstate>] '<error>'`.  The code
   * reads back with `std::stol`, and sqlstate and error follow its digits.
   */
  function BindErrorMsg(code: int32, sqlstate: string, error: string): (r: string)
    ensures |r| == 6 + |IntToString(code)| + |MessageTail(sqlstate, error)|
    ensures r[..6] == MESSAGE_HEAD
    ensures Stol(r[6..]) == Success(code as int64)
    ensures r[6 + |IntToString(code)|..] == MessageTail(sqlstate, error)
  {
    var digits := IntToString(code);
    var tail := MessageTail(sqlstate, error);
    StolOfIntToString(code as int64, tail);
    var r := MESSAGE_HEAD + (digits + tail);
    assert r[..6] == MESSAGE_HEAD && r[6..] == digits + tail;
    assert r[6 + |digits|..] == tail;
    r
  }

  /**
   * `exception_from_stmt` and `exception_from_mysql`: the unsigned error
   * number cast to `int` is the code, which the source asserts is non-zero.
   */
  function ExceptionFrom(h: HandleError): (e: Exception)
    requires h.errno != 0
    ensures e.code != 0 && (e.code - h.errno) % TWO_32 == 0
    ensures e.What() == BindErrorMsg(e.code, h.sqlstate, h.error)
  {
    var code := UInt32ToInt32(h.errno);
    Exception(code, BindErrorMsg(code, h.sqlstate, h.error))
  }
}

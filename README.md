# sqlcc: a Dafny model of the MySQL backend's core

sqlcc is a C++ database access layer. A generic `Value` type carries
arguments and results. Backends register under a name in a process-wide
driver registry. The MySQL backend turns a data source name (DSN) into a
connection configuration, and it moves `Value`s in and out of the client
library's `MYSQL_BIND` descriptors. This project models and proves:

- **The DSN parser and printer** (`Dsn`, `DsnProperties`).
  - `Config` is a record with the source's defaults: host `localhost`, port 3306, timeouts 5, reconnect 1.
  - `Parse` is the parse as a function. `ParseDsn` and `ParseParam` are methods that walk the string the way `parse_dsn` and its do/while loop do, each proved equal to its function.
  - `Format` is `operator<<`.
  - Integers are read with a model of `std::stol` (`Decimal.Stol`): leading white space, an optional sign, the longest digit run, range failure, trailing text ignored. Each value is narrowed to `int` by wrap-around (`Native.WrapInt32`).
  - Every `std::invalid_argument` the parser throws is a `DsnError`.
- **The value model** (`Values`): `NullValue<T>`, the ten-way `Value` union, its printer and the list printer.
  - `NullCell` holds the operators that update a `NullValue` in place.
  - How a `double` and a `std::tm` are printed is passed in as a parameter.
- **The exception text** (`Errors`): `Error(<code>)  [<sqlstate>] '<error>'`, and the code taken from the handle's error number.
- **The result side of a statement** (`ResultBinds`, `Statement.SQLRows`):
  - how each column's output bind is allocated;
  - how `BindTo`/`BindToValue` copy one fetched column into a caller's slot;
  - the cursor's `Next` and `Scan`.
- **The parameter side** (`ParamBinds`, `Statement.MySQLStmt`):
  - how each argument becomes an input bind, with `std::tm` converted to `MYSQL_TIME`;
  - what the client library reads back from that bind;
  - statement preparation, parameter binding, `Exec` and `Query`.
- **The driver registry** (`Registry`): register-if-absent and unregister-returns-bool over a name→driver map.
- **`merge_values`** (`Merge`): an argument list turned into a `Value` sequence.

Every call into the MySQL client library becomes an input in the model:

- the code it returns;
- the handle's error number, SQLSTATE and text;
- for a fetch, the cells it writes;
- the insert id and the affected-row count.

A C++ exception is a `Failure`/`Fail` of the `Wrappers` result types. The
source's `assert`s become preconditions: a non-zero error number, and the
argument and destination counts.

Where the code and the design description of the repository disagree, the
model follows the code:

- **Scanning is strict.** A column scans only into a slot whose alternative matches its buffer kind. There is no integer or float widening.
- **A NULL column can change the slot's alternative.** Scanned into a nullable slot, a NULL column replaces the slot with the NULL of the column's own buffer kind (`ResultBinds.NullScanAlternative`).
- **`format(parse(dsn)) == dsn` holds only for a DSN that is the printed text of a formattable configuration** (`DsnProperties.Formattable`, `DsnProperties.FormatParse`). A configuration is formattable when:
  - user has no ':' or '@';
  - passwd has no '@';
  - host has none of `:()/@`;
  - dbname has no '?';
  - dbname has no '@' when user and passwd are both empty.

  Other configurations print text that parses to something else. For example, dbname `a?b` prints a DSN that is refused with the unknown parameter `b`. A port written with leading zeros, or a userinfo of `:@`, also prints differently.

## Model

| member | source | states |
|---|---|---|
| Native.WrapInt32 | src/driver/mysql/dsn.cc:82-88 | the `long` → `int` narrowing agrees with its argument modulo 2^32, and is the identity on the `int` range |
| Native.WrapUInt32 | src/driver/mysql/stmt.cc:268-273 | the `int` → `unsigned int` conversion agrees modulo 2^32 and is the identity on non-negative values that fit |
| Native.ToInt64 | src/driver/mysql/stmt.cc:352-353 | an unsigned 64-bit counter read as `int64_t` agrees modulo 2^64 and is unchanged below 2^63 |
| Native.ToUInt64 | src/driver/mysql/stmt.cc:102-110 | an `int64_t` read as `uint64_t` agrees modulo 2^64 and is unchanged when non-negative |
| Native.UInt32ToInt32 | src/driver/mysql/exception.cc:18 | the error number cast to `int` agrees modulo 2^32 and is zero exactly when the error number is |
| Native.SignednessRoundTrip | src/driver/mysql/stmt.cc:93-110 | reading eight bytes with the other signedness and back restores the value |
| Decimal.IntToString | src/driver/mysql/exception.cc:13 | `<<` on an integer writes a non-empty run of digits, after a '-' only for negatives |
| Decimal.Stol | src/driver/mysql/dsn.cc:45 | `std::stol` fails with "no conversion" exactly when no digit follows the white space and the sign |
| Decimal.StolOfIntToString | src/driver/mysql/exception.cc:13 | `std::stol` reads back what `<<` wrote for any 64-bit integer, whatever non-digit text follows |
| Values.Present | src/include/sqlcc/driver/driver.h:29 | `NullValue(v)` is present, not `nullptr`, and holds `v` |
| Values.MarkedPresent | src/include/sqlcc/driver/driver.h:36 | the non-const `operator*` makes the value present and keeps its payload |
| Values.EqualsPayloadIsPresent | src/include/sqlcc/driver/driver.h:32 | `nv == v` holds exactly when `nv` is `NullValue(v)`, and never when absent |
| Values.FormatNull | src/include/sqlcc/driver/driver.h:38-45 | an absent value prints "null", a present one prints its payload |
| Values.NullIntegerFormat | src/include/sqlcc/driver/driver.h:38-45 | a nullable integer prints "null" exactly when it is absent |
| Values.EqualsPayload | src/include/sqlcc/driver/driver.h:32 | `nv == v`: holds exactly for the present value `v` (`Values.EqualsPayloadIsPresent`) |
| Values.FormatValue | src/include/sqlcc/driver/driver.h:129-133 | prints the active alternative (`Values.FormatAll`, `Values.NullIntegerFormat`) |
| Values.FormatAll | src/include/sqlcc/driver/driver.h:129-133 | each value is printed by its active alternative, one text per value |
| Values.ListTextShort | src/include/sqlcc/driver/driver.h:135-144 | the empty list prints "[]", a single value prints alone in brackets |
| Values.ListTextAppend | src/include/sqlcc/driver/driver.h:135-144 | one more value adds exactly ", " and its text before the closing bracket |
| Values.PrintValues | src/include/sqlcc/driver/driver.h:135-144 | the index loop writes exactly the bracketed, ", "-separated list |
| Values.NullCell.constructor | src/include/sqlcc/driver/driver.h:28 | a default-constructed value is absent and equals `nullptr` |
| Values.NullCell.FromValue | src/include/sqlcc/driver/driver.h:29 | constructing from `v` gives the present value `v` |
| Values.NullCell.Assign | src/include/sqlcc/driver/driver.h:33-35 | `nv = v` leaves the present value `v` |
| Values.NullCell.Deref | src/include/sqlcc/driver/driver.h:36 | the non-const `operator*` marks the object present, keeps and returns its payload |
| Dsn.Find | src/driver/mysql/dsn.cc:29-30 | `find` returns the first position of the character, or the length (`npos`) when it is absent |
| Dsn.ParseUserinfo | src/driver/mysql/dsn.cc:28-36 | with a ':', user and passwd rejoin to the userinfo and user has no ':'; without one, user is the whole text and passwd is kept; nothing else changes |
| Dsn.ParseInt32 | src/driver/mysql/dsn.cc:82-88 | an integer parameter succeeds exactly when `std::stol` does, and holds its value narrowed to `int` |
| Dsn.ParseTcpAddress | src/driver/mysql/dsn.cc:38-46 | without ':' the whole text is the host; with one, it succeeds exactly when the port text converts; only host and port change |
| Dsn.ParseProtocolAddress | src/driver/mysql/dsn.cc:48-65 | no '(' means a bare address; a protocol other than "tcp" and a missing ')' are refused; only host and port change |
| Dsn.KeyFor | src/driver/mysql/dsn.cc:81-93 | a name is recognised exactly when it is one of the five parameter names |
| Dsn.SetParam | src/driver/mysql/dsn.cc:81-90 | charset takes the text; an integer parameter succeeds exactly when the text converts; no other parameter or field changes |
| Dsn.ParseKvParam | src/driver/mysql/dsn.cc:71-94 | an unknown key is refused with its name; a known key sets that parameter from the text after the first '=' |
| Dsn.Segments | src/driver/mysql/dsn.cc:96-104 | the '&'-free segments, at least one, rejoin with '&' to the parameter string |
| Dsn.ApplyParams | src/driver/mysql/dsn.cc:96-104 | applying segments changes only the five parameters |
| Dsn.ParseParam | src/driver/mysql/dsn.cc:96-104 | the do/while loop applies each '&'-separated segment in order, stopping at the first refused one |
| Dsn.ParseDbnameAndParams | src/driver/mysql/dsn.cc:126-133 | dbname is the text up to the first '?', and the text after it is applied as parameters (proved by `DsnProperties.DbnameRoundTrip`, `DsnProperties.DbnameKeepsAddress` and `DsnProperties.ParseWithoutParams`) |
| Dsn.Parse | src/driver/mysql/dsn.cc:106-134 | the whole parse. It keeps the userinfo (`DsnProperties.AfterUserinfoKeepsUserinfo`), inverts `Format` on formattable configurations (`DsnProperties.ParseFormat`) and refuses bad addresses (`DsnProperties.AddressFailureFailsParse`) |
| Dsn.Format | src/driver/mysql/dsn.cc:20-26 | `operator<<` prints userinfo, address, '/' and dbname. A formattable configuration's text parses back (`DsnProperties.ParseFormat`, `DsnProperties.FormatParse`) |
| Dsn.ParseDsn | src/driver/mysql/dsn.cc:106-134 | the step-by-step parse agrees with `Parse` on every DSN |
| Dsn.ParseAfterUserinfoSteps | src/driver/mysql/dsn.cc:117-134 | splitting off the address at the first '/' and the parameters at the first '?' agrees with the parse of everything after the userinfo |
| DsnProperties.AfterUserinfoKeepsUserinfo | src/driver/mysql/dsn.cc:117-134 | what follows the userinfo never changes user or passwd |
| DsnProperties.DbnameKeepsAddress | src/driver/mysql/dsn.cc:126-133 | what follows the '/' changes only dbname and the parameters |
| DsnProperties.ParseWithoutUserinfo | src/driver/mysql/dsn.cc:110-115 | without '@', user and passwd stay empty |
| DsnProperties.ParseWithoutDbname | src/driver/mysql/dsn.cc:118-122 | without '/' after the userinfo, dbname and all parameters keep their defaults |
| DsnProperties.ParseWithoutParams | src/driver/mysql/dsn.cc:126-130 | without '?', all parameters keep their defaults |
| DsnProperties.KeyForKeyName | src/driver/mysql/dsn.cc:81-93 | every parameter is recognised under its own name |
| DsnProperties.ProtocolTailIgnored | src/driver/mysql/dsn.cc:58-64 | after "tcp(", only the text up to the first ')' matters |
| DsnProperties.SegmentsOfJoin | src/driver/mysql/dsn.cc:99-103 | splitting at '&' undoes joining '&'-free parts |
| DsnProperties.SegmentsTrailingAmp | src/driver/mysql/dsn.cc:99-103 | a trailing '&' adds one empty segment |
| DsnProperties.ApplyParamsAppend | src/driver/mysql/dsn.cc:99-103 | applying two segment lists in turn is applying their concatenation |
| DsnProperties.LaterDuplicateWins | src/driver/mysql/dsn.cc:81-90 | of repeated keys, the last one decides the value |
| DsnProperties.EmptyParamsRefused | src/driver/mysql/dsn.cc:91-92 | a bare '?' is the empty key, which is refused |
| DsnProperties.TrailingAmpRefused | src/driver/mysql/dsn.cc:96-104 | any parameter string ending in '&' fails |
| DsnProperties.AddressTextChars | src/driver/mysql/dsn.cc:24 | the printed address adds only "tcp", parentheses, ':' and the port's digits to the host |
| DsnProperties.TcpAddressRoundTrip | src/driver/mysql/dsn.cc:38-46 | `host:port` parses back to that host and port |
| DsnProperties.AddressRoundTrip | src/driver/mysql/dsn.cc:48-65 | `tcp(host:port)` parses back to that host and port |
| DsnProperties.UserinfoRoundTrip | src/driver/mysql/dsn.cc:20-36 | the printed userinfo parses back to user and passwd and leaves the text after it |
| DsnProperties.AfterUserinfoRoundTrip | src/driver/mysql/dsn.cc:117-124 | the printed address before '/' parses back and leaves the text after '/' |
| DsnProperties.DbnameRoundTrip | src/driver/mysql/dsn.cc:126-133 | dbname up to '?' parses back and the text after '?' is applied as parameters |
| DsnProperties.ParseFormatted | src/driver/mysql/dsn.cc:106-134 | a formattable configuration's printed text (user without ':' or '@', passwd without '@', host without any of `:()/@`, dbname without '?', and without '@' when the userinfo is empty) plus a parameter string parses to its five printed fields, with the parameters applied to their defaults |
| DsnProperties.ParseFormat | src/driver/mysql/dsn.cc:20-26 | for a formattable configuration (the conditions of `ParseFormatted`), `parse(format(cfg))` restores every printed field, with default parameters |
| DsnProperties.FormatParse | src/driver/mysql/dsn.cc:20-26 | `format(parse(dsn)) == dsn` for every DSN that is a formattable configuration's printed text (the conditions of `ParseFormatted`) |
| DsnProperties.ParamTextParsed | src/driver/mysql/dsn.cc:71-80 | a `key=value` segment sets that key from that value |
| DsnProperties.IntParamRoundTrip | src/driver/mysql/dsn.cc:81-88 | an integer parameter written in decimal reads back exactly |
| DsnProperties.AllParamsApplied | src/driver/mysql/dsn.cc:81-90 | all five parameters, each given once, are all set |
| DsnProperties.ParseWithAllParams | src/driver/mysql/dsn.cc:106-134 | a printed configuration followed by all five parameters parses to it with those parameters |
| DsnProperties.UnsupportedProtocolRefused | src/driver/mysql/dsn.cc:54-57 | a protocol other than "tcp" is refused, whatever follows |
| DsnProperties.UnclosedAddressRefused | src/driver/mysql/dsn.cc:58-61 | "tcp(" without a ')' is refused |
| DsnProperties.AddressFailureFailsParse | src/driver/mysql/dsn.cc:117-123 | a refused address fails the whole DSN |
| DsnProperties.ParseBasicDsn | test/driver/mysqldriver_test.cc:13-21 | the basic DSN parses to user root, passwd toor, host 10.10.2.3, port 4455, dbname testdb |
| DsnProperties.ToStringOfParsed | test/driver/mysqldriver_test.cc:38-44 | the basic DSN, parsed and printed, is unchanged |
| DsnProperties.ParseDsnWithQuery | test/driver/mysqldriver_test.cc:23-36 | the DSN with five parameters sets timeout 10, read_timeout 6, write_timeout 8, reconnect 0, charset utf-8 |
| Errors.BindErrorMsg | src/driver/mysql/exception.cc:11-15 | the message is "Error(", the code's digits (which `std::stol` reads back), then `)  [sqlstate] 'error'` |
| Errors.ExceptionFrom | src/driver/mysql/exception.cc:17-29 | a non-zero error number gives a non-zero code equal to it modulo 2^32, and `what()` is the formatted message |
| ResultBinds.AllocateResultBind | src/driver/mysql/stmt.cc:50-80 | integer columns get LONGLONG and floating columns DOUBLE; every other column gets STRING of the column's width. All three are kinds the release switch handles. The flags start clear and the length at 0. |
| ResultBinds.NullValueFromBind | src/driver/mysql/stmt.cc:82-91 | a NULL column becomes an absent NullInt64, NullDouble or NullString, chosen by buffer type |
| ResultBinds.ReadInt64 | src/driver/mysql/stmt.cc:93-101 | succeeds exactly on a present LONGLONG column, with its integer; otherwise code 400 |
| ResultBinds.ReadUInt64 | src/driver/mysql/stmt.cc:102-110 | succeeds exactly on a present LONGLONG column, with its bytes read unsigned; otherwise code 400 |
| ResultBinds.ReadDouble | src/driver/mysql/stmt.cc:111-119 | succeeds exactly on a present DOUBLE column, with its double; otherwise code 400 |
| ResultBinds.ReadString | src/driver/mysql/stmt.cc:120-128 | succeeds exactly on a present STRING column, with the buffer's first `*length` characters; otherwise code 400 |
| ResultBinds.ReadTm | src/driver/mysql/stmt.cc:130-143 | succeeds exactly on a present STRING column of length 19, with its text parsed; otherwise code 400 |
| ResultBinds.Touched | src/driver/mysql/stmt.cc:145-153 | the slot left behind by the non-const `operator*` keeps its alternative and is present. A non-nullable slot is unchanged, and a nullable one keeps its payload. |
| ResultBinds.BindToValue | src/driver/mysql/stmt.cc:145-163 | copies one column into one slot, as described by `ResultBinds.BindToValueOutcomes`, `ResultBinds.ScanSucceedsIffAccepted` and `ResultBinds.ScanRoundTrip` |
| ResultBinds.BindToValueOutcomes | src/driver/mysql/stmt.cc:145-163 | A NULL column fails exactly the non-nullable slots and turns a nullable slot into `NullValueFromBind`. A failure has code 400 and leaves the slot touched. A successful read keeps the alternative and makes the slot present. |
| ResultBinds.ScanSucceedsIffAccepted | src/driver/mysql/stmt.cc:93-163 | a present column scans without error exactly when the slot's type accepts its buffer type (and length 19 for tm) |
| ResultBinds.NullScanAlternative | src/driver/mysql/stmt.cc:155-163 | a NULL column keeps a nullable slot's alternative only when the buffer type picks the same one; a NullUInt64 or NullTm slot always changes |
| ResultBinds.ScanRoundTrip | src/driver/mysql/stmt.cc:93-128 | a column written from a value scans back into a slot of that alternative as the value itself, or as absent when it was absent |
| ResultBinds.ScanSlots | src/driver/mysql/stmt.cc:194-199 | the row scan, slot by slot up to the first throw (`ResultBinds.ScanSlotsPass`, `ResultBinds.ScanSlotsStops`) |
| ResultBinds.ScanSlotsPass | src/driver/mysql/stmt.cc:194-199 | a row scans without error exactly when every slot does, and each slot then holds its own column's value |
| ResultBinds.ScanSlotsStops | src/driver/mysql/stmt.cc:194-199 | the first failing slot's error is thrown; slots up to it are updated and the later ones untouched |
| ParamBinds.StdTmToMySQLTm | src/driver/mysql/stmt.cc:264-276 | the `MYSQL_TIME` is a DATETIME with no fraction and no sign |
| ParamBinds.TmRoundTrip | src/driver/mysql/stmt.cc:264-276 | within calendar ranges the conversion (month + 1, year + 1900) loses only wday, yday and isdst |
| ParamBinds.BindValue | src/driver/mysql/stmt.cc:278-333 | the binding with the `uint64_t` case corrected. Every argument reaches the library as meant (`ParamBinds.BindValueDelivers`) |
| ParamBinds.BindValueAsWritten | src/driver/mysql/stmt.cc:278-333 | the binding as written differs from the corrected one only for `uint64_t` |
| ParamBinds.BindValueDelivers | src/driver/mysql/stmt.cc:278-333 | each argument reaches the library as meant, and as NULL exactly when it is an absent nullable |
| ParamBinds.UnsignedArgumentMisdelivered | src/driver/mysql/stmt.cc:286-290 | as written, every `uint64_t` argument is read as the double with its bit pattern, never as the integer |
| ParamBinds.UnsignedOneMisdelivered | src/driver/mysql/stmt.cc:286-290 | as written, the `uint64_t` argument 1 arrives as a double, not as the integer 1 |
| Statement.AllocateBinds | src/driver/mysql/stmt.cc:172-176 | a fresh array with one bind per field, bind i being the one allocated for field i |
| Statement.SQLRows.constructor | src/driver/mysql/stmt.cc:165-178 | the column names are the field names in order, and bind i is the bind allocated for field i |
| Statement.SQLRows.Open | src/driver/mysql/stmt.cc:165-181 | a cursor is returned exactly when binding the results succeeds, else the statement's error is thrown |
| Statement.SQLRows.Columns | src/driver/mysql/stmt.cc:227 | the column names are the field names, in result order |
| Statement.SQLRows.Next | src/driver/mysql/stmt.cc:183-192 | a fetch code of 0 gives true with the fetched cells in the binds; `MYSQL_NO_DATA` gives false; any other code throws the statement's error |
| Statement.SQLRows.Scan | src/driver/mysql/stmt.cc:194-199 | the destination slots and the outcome are those of the specification `ScanSlots` |
| Statement.ScanRow | src/driver/mysql/stmt.cc:194-199 | the slot loop, stopping at the first throw, realises `ScanSlots` |
| Statement.BindArgs | src/driver/mysql/stmt.cc:335-339 | argument i is bound into bind i by the binding as written (`ParamBinds.BindValueAsWritten`, so a `uint64_t` goes in as DOUBLE), and the later binds are untouched |
| Statement.MySQLStmt.constructor | src/driver/mysql/stmt.cc:229-243 | a new statement records the parameter count and owns no bind array yet |
| Statement.MySQLStmt.Prepare | src/driver/mysql/stmt.cc:229-243 | initialisation failure throws the connection's error; preparation failure throws the statement's; otherwise there is a statement with no binds |
| Statement.MySQLStmt.BindParams | src/driver/mysql/stmt.cc:357-368 | a fresh array of `NumInput()` binds holds the arguments in front, bound as written, and cleared binds after; a failing bind call throws |
| Statement.MySQLStmt.Exec | src/driver/mysql/stmt.cc:341-355 | binds only when there are arguments, with the binding as written. A bind or execute failure throws the statement's error. Otherwise the insert id and affected rows are returned as signed 64-bit values. |
| Statement.MySQLStmt.Query | src/driver/mysql/stmt.cc:370-383 | binds only when there are arguments, with the binding as written. A bind, execute or result-bind failure throws. Otherwise a valid cursor is returned over the given fields. |
| Registry.Registered | src/driver.cc:11-17 | registration fails exactly when the name is taken, with the source's message; otherwise the name maps to the driver and no other entry changes |
| Registry.Unregistered | src/driver.cc:19-26 | reports whether the name was present; the name is then absent and no other entry changes |
| Registry.DriverRegistry.constructor | src/driver.cc:9 | the registry starts empty |
| Registry.DriverRegistry.Register | src/driver.cc:11-17 | a duplicate throws and keeps the map; otherwise the map is `Registered`'s |
| Registry.DriverRegistry.Unregister | src/driver.cc:19-26 | returns presence and removes the name, as `Unregistered` says |
| Registry.DuplicateKeepsOriginal | src/driver.cc:12-15 | a duplicate registration is refused and the original driver is kept |
| Registry.RegisterThenUnregister | src/driver.cc:11-26 | registering a fresh name and unregistering it restores the map, and the name can be registered again |
| Registry.UnregisterAbsent | src/driver.cc:19-23 | unregistering an absent name returns false and changes nothing |
| Merge.ArgToValue | src/include/sqlcc/sqlcc.h:10-21 | one argument becomes the `Value` alternative of its C++ type (`Merge.Merged`, `Merge.MergeExample`) |
| Merge.Merged | src/include/sqlcc/sqlcc.h:10-21 | one value per argument, value i converted from argument i |
| Merge.MergeValues | src/include/sqlcc/sqlcc.h:10-21 | the push_back loop produces exactly `Merged` |
| Merge.MergedAppend | src/include/sqlcc/sqlcc.h:12-20 | no arguments give no values; one more trailing argument appends exactly its value |
| Merge.MergeExample | test/sqlcc_test.cc:10 | `merge_values(1, 2, 3, "test", tm)` gives three integers, a string and the tm |

## Left out

- **Live client-library and network calls.** This covers `mysql_stmt_init`, prepare, execute, fetch and bind_result, `mysql_stmt_param_count`, and the connection and driver classes. Their results are inputs to the model.
- **Threading.** This covers `EnterThread`/`LeaveThread` and the transaction stub. The registry has no lock in the source, and the model is single-threaded.
- **The generic facade and the connection pool.** The facade only delegates; the pool does not exist in the code.
- **GetDriver.** It is declared in the driver header but defined nowhere in the code, so it is not modelled.
- **Formatting and parsing of doubles and dates.** Printing a `double`, the `put_time` formatter and the `get_time` "%Y-%m-%d %T" parser are parameters. A `double` is its 64-bit pattern; IEEE equality is not modelled.
- **Indeterminate memory.** Fresh buffers (`new int64_t`, `new char[n]`) are modelled as zero. The payload of a default-constructed `NullValue()` (src/include/sqlcc/driver/driver.h:28, 54) is left unspecified in `Values.NullCell`. The NULL results of `ResultBinds.NullValueFromBind` (src/driver/mysql/stmt.cc:85-89) are given the zero payloads `ABSENT_INT64`, `ABSENT_DOUBLE` and `ABSENT_STRING`.
- **Heap ownership.** This covers the new/delete of bind buffers, and the scalar `delete` of a `new[]` array in the release routine. It also covers the leak of the previous bind array, and of its `MYSQL_TIME`s, when a statement is executed again. The release switch's coverage is stated by `ResultBinds.AllocateResultBind`.
- ParamBinds.BindValue: `buffer_length` of fixed-size types (`sizeof` of an integer, a `NullValue` or a `MYSQL_TIME`) is not modelled. The library ignores it for those types; a string's length is its characters.
- ParamBinds.Decode: assumes the client library honours `is_null_value` the way the code relies on. The code never sets the `is_null` pointer, and the bind array is zeroed (src/driver/mysql/stmt.cc:360). A library that reads only `*is_null` would receive an absent nullable as its payload, not as NULL. This is not modelled.
- ParamBinds.StdTmToMySQLTm: `tm_year + 1900` is computed without `int` overflow, which C++ leaves undefined near `INT_MAX`.
- Statement.SQLRows.Next: a failing fetch (including `MYSQL_DATA_TRUNCATED`) is modelled as leaving the binds unchanged. Its error number is required to be non-zero, as the source's `assert` in the exception factory demands. What the library returns after exhaustion is not modelled.
- Statement.SQLRows.Scan: that `Next` must have returned true before `Scan` is not modelled. The binds hold whatever the last fetch wrote.
- Statement.MySQLStmt.BindParams: binds with `ParamBinds.BindValueAsWritten`, as `bind_args` does, so an unsigned argument is misdelivered here (see Findings). The corrected `ParamBinds.BindValue` is proved to deliver every argument but is not wired into the statement.
- Merge.ArgToValue: C++'s overload resolution for the `Value` converting constructor is reduced to one `Arg` alternative per argument type.

## Findings

| source | as written | input that shows it | evidently intended | confidence | as-written member | corrected member |
|---|---|---|---|---|---|---|
| src/driver/mysql/stmt.cc:286-290 | a `uint64_t` argument is bound with buffer type `MYSQL_TYPE_DOUBLE` over the integer's bytes | the argument `UInt64(1)` reaches the library as the double with bit pattern 1 (about 4.9e-324), lemma `UnsignedOneMisdelivered` | bind it as `MYSQL_TYPE_LONGLONG` with `is_unsigned`, as the `NullUInt64` case at lines 308-313 does | not executed | ParamBinds.BindValueAsWritten | ParamBinds.BindValue |

/**
 * The MySQL backend's data source name:
 *   [username[:password]@][protocol[(address)]]/dbname[?param1=value1&...&paramN=valueN]
 * parsed into a `Config` and printed back.  Every split is at the FIRST
 * occurrence of its separator, as `std::string::find` gives it.
 */
module Dsn {
  import opened Wrappers
  import opened Native
  import opened Decimal

  datatype Config = Config(
    user: string,
    passwd: string,
    host: string,
    port: int32,
    dbname: string,
    timeout: int32,
    readTimeout: int32,
    writeTimeout: int32,
    reconnect: int32,
    charset: string)

  /** `Config::Config()`: what a field holds when the DSN does not mention it. */
  const DEFAULT: Config := Config("", "", "localhost", 3306, "", 5, 5, 5, 1, "")

  /** The `std::invalid_argument` (and `std::out_of_range`) the parser throws. */
  datatype DsnError =
    | UnsupportedProtocol(protocol: string)
    | InvalidAddress
    | UnrecognizedParam(key: string)
    | InvalidNumber(text: string, reason: StolError)

  /** `s.find(c)`, with `|s|` standing for `npos`. */
  function Find(s: string, c: char): (i: nat)
    ensures i <= |s|
    ensures i < |s| ==> s[i] == c
    ensures c !in s[..i]
    decreases |s|
  {
    if |s| == 0 || s[0] == c then 0
    else
      var i := 1 + Find(s[1..], c);
      assert s[..i] == [s[0]] + s[1..][..i - 1];
      i
  }

  /** `cfg` with every parameter field reset to its default. */
  function WithDefaultParams(cfg: Config): Config {
    cfg.(timeout := DEFAULT.timeout, readTimeout := DEFAULT.readTimeout,
         writeTimeout := DEFAULT.writeTimeout, reconnect := DEFAULT.reconnect,
         charset := DEFAULT.charset)
  }

  /** `cfg` with user, passwd, host, port and dbname reset to their defaults. */
  function WithDefaultAddress(cfg: Config): Config {
    cfg.(user := DEFAULT.user, passwd := DEFAULT.passwd, host := DEFAULT.host,
         port := DEFAULT.port, dbname := DEFAULT.dbname)
  }

  /** `parse_userinfo`: split at the first ':' into user and passwd. */
  function ParseUserinfo(cfg: Config, userinfo: string): (r: Config)
    ensures ':' !in r.user
    ensures ':' in userinfo ==> r.user + ":" + r.passwd == userinfo
    ensures ':' !in userinfo ==> r.user == userinfo && r.passwd == cfg.passwd
    ensures r.(user := cfg.user, passwd := cfg.passwd) == cfg
  {
    var colon := Find(userinfo, ':');
    if colon == |userinfo| then cfg.(user := userinfo)
    else
      assert userinfo == userinfo[..colon] + ":" + userinfo[colon + 1..];
      cfg.(user := userinfo[..colon], passwd := userinfo[colon + 1..])
  }

  /** `std::stol` of a field's text, narrowed to the field's `int32_t`. */
  function ParseInt32(text: string): (r: Result<int32, DsnError>)
    ensures r.Success? <==> Stol(text).Success?
    ensures r.Success? ==> r.value == WrapInt32(Stol(text).value)
  {
    match Stol(text)
    case Success(v) => Success(WrapInt32(v))
    case Failure(e) => Failure(InvalidNumber(text, e))
  }

  /** `parse_tcp_address`: `host[:port]`, split at the first ':'. */
  function ParseTcpAddress(cfg: Config, address: string): (r: Result<Config, DsnError>)
    ensures ':' !in address ==> r == Success(cfg.(host := address))
    ensures ':' in address ==> (r.Success? <==> Stol(address[Find(address, ':') + 1..]).Success?)
    ensures r.Success? ==> r.value == cfg.(host := r.value.host, port := r.value.port)
    ensures r.Success? && ':' in address ==>
              r.value.host == address[..Find(address, ':')]
              && r.value.port == WrapInt32(Stol(address[Find(address, ':') + 1..]).value)
    ensures r.Success? ==> ':' !in r.value.host
  {
    var colon := Find(address, ':');
    if colon == |address| then Success(cfg.(host := address))
    else
      match ParseInt32(address[colon + 1..])
      case Success(port) => Success(cfg.(host := address[..colon], port := port))
      case Failure(e) => Failure(e)
  }

  /**
   * `parse_protocol_address`: text without '(' is `host[:port]`; otherwise
   * the protocol before '(' must be "tcp", a ')' must follow somewhere, and
   * the text between '(' and the first ')' is parsed again.  Only host and
   * port can change.
   */
  function ParseProtocolAddress(cfg: Config, s: string): (r: Result<Config, DsnError>)
    ensures '(' !in s ==> r == ParseTcpAddress(cfg, s)
    ensures '(' in s && s[..Find(s, '(')] != "tcp" ==> r == Failure(UnsupportedProtocol(s[..Find(s, '(')]))
    ensures '(' in s && s[..Find(s, '(')] == "tcp" && ')' !in s ==> r == Failure(InvalidAddress)
    ensures r.Success? ==> r.value == cfg.(host := r.value.host, port := r.value.port)
    ensures r.Success? ==> ':' !in r.value.host && '(' !in r.value.host
    decreases |s|
  {
    var open := Find(s, '(');
    if open == |s| then ParseTcpAddress(cfg, s)
    else if s[..open] != "tcp" then Failure(UnsupportedProtocol(s[..open]))
    else
      var close := Find(s, ')');
      if close == |s| then Failure(InvalidAddress)
      else
        assert s[..3] == "tcp" && close != 0 && close != 1 && close != 2 && close != 3;
        ParseProtocolAddress(cfg, s[open + 1..close])
  }

  /** A `key=value` segment split at its first '='; no '=' means an empty value. */
  function KeyOf(kv: string): string { kv[..Find(kv, '=')] }

  function ValueOf(kv: string): string {
    var eq := Find(kv, '=');
    if eq == |kv| then "" else kv[eq + 1..]
  }

  /** The parameters `parse_kv_param` knows. */
  datatype ParamKey = Timeout | ReadTimeout | WriteTimeout | Reconnect | Charset

  /** The key that names each parameter in a DSN. */
  function KeyName(key: ParamKey): string {
    match key
    case Timeout => "timeout"
    case ReadTimeout => "read_timeout"
    case WriteTimeout => "write_timeout"
    case Reconnect => "reconnect"
    case Charset => "charset"
  }

  /** The key chain of `parse_kv_param`: which parameter a key names, if any. */
  function KeyFor(name: string): (r: Option<ParamKey>)
    ensures r.Some? ==> KeyName(r.value) == name
    ensures r.None? ==> forall key: ParamKey :: KeyName(key) != name
  {
    if name == "timeout" then Some(Timeout)
    else if name == "read_timeout" then Some(ReadTimeout)
    else if name == "write_timeout" then Some(WriteTimeout)
    else if name == "reconnect" then Some(Reconnect)
    else if name == "charset" then Some(Charset)
    else None
  }

  datatype ParamValue = IntParam(n: int32) | TextParam(s: string)

  /** The field a parameter key names. */
  function Param(cfg: Config, key: ParamKey): ParamValue {
    match key
    case Timeout => IntParam(cfg.timeout)
    case ReadTimeout => IntParam(cfg.readTimeout)
    case WriteTimeout => IntParam(cfg.writeTimeout)
    case Reconnect => IntParam(cfg.reconnect)
    case Charset => TextParam(cfg.charset)
  }

  /**
   * One parameter assignment: charset takes the text as it is; the integer
   * parameters take `std::stol` of it narrowed to `int32_t`, and fail when
   * `std::stol` does.  No other field changes.
   */
  function SetParam(cfg: Config, key: ParamKey, text: string): (r: Result<Config, DsnError>)
    ensures key == Charset ==> r == Success(cfg.(charset := text))
    ensures key != Charset ==> (r.Success? <==> Stol(text).Success?)
    ensures r.Success? && key != Charset ==> Param(r.value, key) == IntParam(WrapInt32(Stol(text).value))
    ensures r.Success? ==> WithDefaultParams(r.value) == WithDefaultParams(cfg)
    ensures r.Success? ==> forall other: ParamKey :: other != key ==> Param(r.value, other) == Param(cfg, other)
  {
    if key == Charset then Success(cfg.(charset := text))
    else match ParseInt32(text)
      case Failure(e) => Failure(e)
      case Success(n) =>
        match key
        case Timeout => Success(cfg.(timeout := n))
        case ReadTimeout => Success(cfg.(readTimeout := n))
        case WriteTimeout => Success(cfg.(writeTimeout := n))
        case Reconnect => Success(cfg.(reconnect := n))
  }

  /** `parse_kv_param`: set the field the key names; any other key, the empty one included, is refused. */
  function ParseKvParam(cfg: Config, kv: string): (r: Result<Config, DsnError>)
    ensures KeyFor(KeyOf(kv)).None? ==> r == Failure(UnrecognizedParam(KeyOf(kv)))
    ensures KeyFor(KeyOf(kv)).Some? ==> r == SetParam(cfg, KeyFor(KeyOf(kv)).value, ValueOf(kv))
  {
    match KeyFor(KeyOf(kv))
    case None => Failure(UnrecognizedParam(KeyOf(kv)))
    case Some(key) => SetParam(cfg, key, ValueOf(kv))
  }

  /** Segments joined with '&'. */
  function JoinAmp(parts: seq<string>): string
    decreases |parts|
  {
    if |parts| == 0 then "" else if |parts| == 1 then parts[0] else parts[0] + "&" + JoinAmp(parts[1..])
  }

  /** The '&'-separated segments of a parameter string, in order; an empty string is one empty segment. */
  function Segments(s: string): (r: seq<string>)
    ensures |r| >= 1
    ensures forall i :: 0 <= i < |r| ==> '&' !in r[i]
    ensures JoinAmp(r) == s
    decreases |s|
  {
    var amp := Find(s, '&');
    if amp == |s| then [s]
    else
      assert s == s[..amp] + "&" + s[amp + 1..];
      [s[..amp]] + Segments(s[amp + 1..])
  }

  /** The segments applied left to right; the first failing segment ends the parse. */
  function ApplyParams(cfg: Config, segments: seq<string>): (r: Result<Config, DsnError>)
    ensures r.Success? ==> WithDefaultParams(r.value) == WithDefaultParams(cfg)
    decreases |segments|
  {
    if |segments| == 0 then Success(cfg)
    else match ParseKvParam(cfg, segments[0])
      case Failure(e) => Failure(e)
      case Success(c) => ApplyParams(c, segments[1..])
  }

  /** `parse_param`: the do/while loop that cuts one segment off at each '&'. */
  method ParseParam(cfg: Config, paramstr: string) returns (r: Result<Config, DsnError>)
    ensures r == ApplyParams(cfg, Segments(paramstr))
  {
    var current := cfg;
    var unresolved := paramstr;
    while true
      invariant ApplyParams(current, Segments(unresolved)) == ApplyParams(cfg, Segments(paramstr))
      decreases |unresolved|
    {
      var ampPos := Find(unresolved, '&');
      ghost var segments := Segments(unresolved);
      assert segments[0] == unresolved[..ampPos];
      var step := ParseKvParam(current, unresolved[..ampPos]);
      if step.Failure? {
        return Failure(step.error);
      }
      assert ApplyParams(current, segments) == ApplyParams(step.value, segments[1..]);
      current := step.value;
      if ampPos == |unresolved| {
        assert segments[1..] == [];
        return Success(current);
      }
      assert segments[1..] == Segments(unresolved[ampPos + 1..]);
      unresolved := unresolved[ampPos + 1..];
    }
  }

  /** What remains once the userinfo and its '@' are cut off. */
  function AfterUserinfo(dsn: string): string {
    var at := Find(dsn, '@');
    if at == |dsn| then dsn else dsn[at + 1..]
  }

  /** The configuration once the userinfo before the first '@', if any, is parsed. */
  function WithUserinfo(dsn: string): Config {
    var at := Find(dsn, '@');
    if at == |dsn| then DEFAULT else ParseUserinfo(DEFAULT, dsn[..at])
  }

  /** `parse_dbname` and what follows it: dbname up to the first '?', then the parameters. */
  function ParseDbnameAndParams(cfg: Config, tail: string): Result<Config, DsnError> {
    var question := Find(tail, '?');
    if question == |tail| then Success(cfg.(dbname := tail))
    else ApplyParams(cfg.(dbname := tail[..question]), Segments(tail[question + 1..]))
  }

  /** Everything after the userinfo: the address up to the first '/', then dbname and parameters. */
  function ParseAfterUserinfo(cfg: Config, rest: string): Result<Config, DsnError> {
    var slash := Find(rest, '/');
    if slash == |rest| then ParseProtocolAddress(cfg, rest)
    else match ParseProtocolAddress(cfg, rest[..slash])
      case Failure(e) => Failure(e)
      case Success(c) => ParseDbnameAndParams(c, rest[slash + 1..])
  }

  /** `parse_dsn`, as a function of the DSN text. */
  function Parse(dsn: string): Result<Config, DsnError> {
    ParseAfterUserinfo(WithUserinfo(dsn), AfterUserinfo(dsn))
  }

  /** `parse_dsn`, written as the source writes it: one local `Config` updated piece by piece. */
  method ParseDsn(dsn: string) returns (r: Result<Config, DsnError>)
    ensures r == Parse(dsn)
  {
    var cfg := DEFAULT;
    var unresolved := dsn;
    var atPos := Find(unresolved, '@');
    if atPos < |dsn| {
      cfg := ParseUserinfo(cfg, unresolved[..atPos]);
    }
    assert cfg == WithUserinfo(dsn);
    unresolved := AfterUserinfo(unresolved);
    r := ParseAfterUserinfoSteps(cfg, unresolved);
  }

  /** The rest of `parse_dsn` once the userinfo is cut off: address, dbname, parameters. */
  method ParseAfterUserinfoSteps(cfg: Config, unresolved: string) returns (r: Result<Config, DsnError>)
    ensures r == ParseAfterUserinfo(cfg, unresolved)
  {
    var slashPos := Find(unresolved, '/');
    if slashPos == |unresolved| {
      return ParseProtocolAddress(cfg, unresolved);
    }
    var address := ParseProtocolAddress(cfg, unresolved[..slashPos]);
    if address.Failure? {
      return Failure(address.error);
    }
    var c := address.value;
    var tail := unresolved[slashPos + 1..];
    assert ParseAfterUserinfo(cfg, unresolved) == ParseDbnameAndParams(c, tail);
    var questionPos := Find(tail, '?');
    if questionPos == |tail| {
      return Success(c.(dbname := tail));
    }
    c := c.(dbname := tail[..questionPos]);
    r := ParseParam(c, tail[questionPos + 1..]);
  }

  /** `user:passwd@`, written only when one of them is non-empty. */
  function UserinfoText(cfg: Config): string {
    if |cfg.user| > 0 || |cfg.passwd| > 0 then cfg.user + ":" + cfg.passwd + "@" else ""
  }

  /** `tcp(host:port)`: the printer always names the tcp protocol. */
  function AddressText(host: string, port: int32): string {
    "tcp(" + host + ":" + IntToString(port) + ")"
  }

  /**
   * `operator<<(Config)`: the userinfo, the address, then `/dbname`;
   * parameters are never written.
   */
  function Format(cfg: Config): string {
    UserinfoText(cfg) + AddressText(cfg.host, cfg.port) + "/" + cfg.dbname
  }
}

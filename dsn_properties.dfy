/** What the DSN parser and printer promise, stated over `Dsn`. */
module DsnProperties {
  import opened Wrappers
  import opened Native
  import opened Decimal
  import opened Dsn

  /** What follows the userinfo never changes user or passwd. */
  lemma AfterUserinfoKeepsUserinfo(cfg: Config, rest: string)
    ensures var r := ParseAfterUserinfo(cfg, rest);
            r.Success? ==> r.value.user == cfg.user && r.value.passwd == cfg.passwd
  {
    var slash := Find(rest, '/');
    if slash < |rest| {
      var a := ParseProtocolAddress(cfg, rest[..slash]);
      if a.Success? {
        DbnameKeepsAddress(a.value, rest[slash + 1..]);
      }
    }
  }

  /** The dbname part changes only dbname and the parameters. */
  lemma DbnameKeepsAddress(cfg: Config, tail: string)
    ensures var r := ParseDbnameAndParams(cfg, tail);
            r.Success? ==> r.value.user == cfg.user && r.value.passwd == cfg.passwd
                           && r.value.host == cfg.host && r.value.port == cfg.port
  {
    var question := Find(tail, '?');
    if question < |tail| {
      var c := cfg.(dbname := tail[..question]);
      var r := ApplyParams(c, Segments(tail[question + 1..]));
      assert r.Success? ==> WithDefaultParams(r.value) == WithDefaultParams(c);
    }
  }

  /** Without an '@', user and passwd keep their empty defaults. */
  lemma ParseWithoutUserinfo(dsn: string)
    requires '@' !in dsn
    ensures var r := Parse(dsn);
            r.Success? ==> r.value.user == DEFAULT.user && r.value.passwd == DEFAULT.passwd
  {
    FindAbsent(dsn, '@');
    AfterUserinfoKeepsUserinfo(DEFAULT, dsn);
  }

  /** Without a '/' after the userinfo, dbname and every parameter keep their defaults. */
  lemma ParseWithoutDbname(dsn: string)
    requires '/' !in AfterUserinfo(dsn)
    ensures var r := Parse(dsn);
            r.Success? ==> r.value.dbname == DEFAULT.dbname && WithDefaultAddress(r.value) == DEFAULT
  {
    FindAbsent(AfterUserinfo(dsn), '/');
    assert WithDefaultAddress(WithUserinfo(dsn)) == DEFAULT;
  }

  /** Without a '?', every parameter keeps its default. */
  lemma ParseWithoutParams(dsn: string)
    requires '?' !in dsn
    ensures var r := Parse(dsn);
            r.Success? ==> WithDefaultAddress(r.value) == DEFAULT
  {
    var rest := AfterUserinfo(dsn);
    assert WithDefaultAddress(WithUserinfo(dsn)) == DEFAULT;
    var slash := Find(rest, '/');
    if slash < |rest| {
      var tail := rest[slash + 1..];
      assert '?' !in tail;
      FindAbsent(tail, '?');
    }
  }

  /** Every parameter is found again under its own key. */
  lemma KeyForKeyName(key: ParamKey)
    ensures KeyFor(KeyName(key)) == Some(key)
  {
    match key
    case Timeout =>
    case ReadTimeout => assert "read_timeout" != "timeout";
    case WriteTimeout => assert "write_timeout" != "timeout" && "write_timeout" != "read_timeout";
    case Reconnect => assert "reconnect" != "timeout" && "reconnect" != "read_timeout" && "reconnect" != "write_timeout";
    case Charset =>
      assert "charset"[0] != "timeout"[0];
      assert "charset" != "read_timeout" && "charset" != "write_timeout" && "charset" != "reconnect";
  }

  /** A separator absent from `a` is found in `a + b` where `b` has it, shifted by `|a|`. */
  lemma {:induction false} FindAfter(a: string, b: string, c: char)
    requires c !in a
    ensures Find(a + b, c) == |a| + Find(b, c)
    decreases |a|
  {
    if |a| == 0 {
      assert a + b == b;
    } else {
      assert a == [a[0]] + a[1..];
      assert (a + b)[0] == a[0] != c;
      assert (a + b)[1..] == a[1..] + b;
      FindAfter(a[1..], b, c);
    }
  }

  /** A separator found in `a` is found at the same place in `a + b`. */
  lemma {:induction false} FindBefore(a: string, b: string, c: char)
    requires Find(a, c) < |a|
    ensures Find(a + b, c) == Find(a, c)
    decreases |a|
  {
    assert (a + b)[0] == a[0];
    if a[0] != c {
      assert (a + b)[1..] == a[1..] + b;
      FindBefore(a[1..], b, c);
    }
  }

  lemma Associative(a: string, b: string, c: string, d: string)
    ensures a + (b + c + d) == a + b + c + d
  {
  }

  /** Splitting `a + [c] + b` at its first `c`, when `a` has none, gives back `a` and `b`. */
  lemma SplitAt(a: string, c: char, b: string)
    requires c !in a
    ensures Find(a + [c] + b, c) == |a|
    ensures (a + [c] + b)[..|a|] == a && (a + [c] + b)[|a| + 1..] == b
  {
    assert a + [c] + b == a + ([c] + b);
    FindAfter(a, [c] + b, c);
  }

  lemma FindAbsent(s: string, c: char)
    requires c !in s
    ensures Find(s, c) == |s|
  {
  }

  /**
   * Once the protocol is "tcp", only the text between '(' and the first ')'
   * matters: whatever follows that ')' is ignored.
   */
  lemma ProtocolTailIgnored(cfg: Config, inner: string, rest: string)
    requires ')' !in inner
    ensures ParseProtocolAddress(cfg, "tcp(" + inner + ")" + rest) == ParseProtocolAddress(cfg, inner)
  {
    var s := "tcp(" + inner + ")" + rest;
    assert s == "tcp" + ("(" + inner + ")" + rest);
    FindAfter("tcp", "(" + inner + ")" + rest, '(');
    assert s == ("tcp(" + inner) + (")" + rest);
    FindAfter("tcp(" + inner, ")" + rest, ')');
    assert s[..3] == "tcp";
    assert s[4..4 + |inner|] == inner;
  }

  /** Splitting at '&' undoes joining with '&'. */
  lemma {:induction false} SegmentsOfJoin(parts: seq<string>)
    requires |parts| >= 1
    requires forall i :: 0 <= i < |parts| ==> '&' !in parts[i]
    ensures Segments(JoinAmp(parts)) == parts
    decreases |parts|
  {
    if |parts| == 1 {
      FindAbsent(parts[0], '&');
    } else {
      var tail := JoinAmp(parts[1..]);
      assert JoinAmp(parts) == parts[0] + ['&'] + tail;
      SplitAt(parts[0], '&', tail);
      assert Segments(JoinAmp(parts)) == [parts[0]] + Segments(tail);
      SegmentsOfJoin(parts[1..]);
      assert parts == [parts[0]] + parts[1..];
    }
  }

  /** A trailing '&' adds one empty segment at the end. */
  lemma {:induction false} SegmentsTrailingAmp(p: string)
    ensures Segments(p + "&") == Segments(p) + [""]
    decreases |p|
  {
    var amp := Find(p, '&');
    if amp == |p| {
      FindAfter(p, "&", '&');
      assert (p + "&")[..|p|] == p;
      assert (p + "&")[|p| + 1..] == "";
    } else {
      FindBefore(p, "&", '&');
      var rest := p[amp + 1..];
      assert (p + "&")[..amp] == p[..amp];
      assert (p + "&")[amp + 1..] == rest + "&";
      assert Segments(p + "&") == [p[..amp]] + Segments(rest + "&");
      assert Segments(p) == [p[..amp]] + Segments(rest);
      SegmentsTrailingAmp(rest);
      SeqAssociative([p[..amp]], Segments(rest), [""]);
    }
  }

  lemma SeqAssociative<T>(a: seq<T>, b: seq<T>, c: seq<T>)
    ensures a + (b + c) == a + b + c
  {
  }

  /** Applying `a + b` is applying `a`, then `b` to its result. */
  lemma {:induction false} ApplyParamsAppend(cfg: Config, a: seq<string>, b: seq<string>)
    ensures ApplyParams(cfg, a + b)
         == match ApplyParams(cfg, a)
            case Failure(e) => Failure(e)
            case Success(c) => ApplyParams(c, b)
    decreases |a|
  {
    if |a| == 0 {
      assert a + b == b;
    } else {
      assert (a + b)[1..] == a[1..] + b;
      match ParseKvParam(cfg, a[0])
      case Failure(e) =>
      case Success(c) => ApplyParamsAppend(c, a[1..], b);
    }
  }

  /** Of several segments naming one key, the last one decides its value. */
  lemma LaterDuplicateWins(cfg: Config, segments: seq<string>, kv: string)
    requires KeyFor(KeyOf(kv)).Some?
    ensures var r := ApplyParams(cfg, segments + [kv]);
            var key := KeyFor(KeyOf(kv)).value;
            r.Success? && key == Charset ==> Param(r.value, key) == TextParam(ValueOf(kv))
    ensures var r := ApplyParams(cfg, segments + [kv]);
            var key := KeyFor(KeyOf(kv)).value;
            r.Success? && key != Charset ==>
              Stol(ValueOf(kv)).Success? && Param(r.value, key) == IntParam(WrapInt32(Stol(ValueOf(kv)).value))
  {
    ApplyParamsAppend(cfg, segments, [kv]);
    match ApplyParams(cfg, segments)
    case Failure(e) =>
    case Success(c) =>
      var key := KeyFor(KeyOf(kv)).value;
      assert ApplyParams(c, [kv]) == SetParam(c, key, ValueOf(kv)) by {
        assert [kv][1..] == [];
        assert ParseKvParam(c, kv) == SetParam(c, key, ValueOf(kv));
      }
  }

  /** An empty parameter string (a bare '?') is one empty key, which is refused. */
  lemma EmptyParamsRefused(cfg: Config)
    ensures ApplyParams(cfg, Segments("")) == Failure(UnrecognizedParam(""))
  {
    assert Segments("") == [""];
    assert KeyOf("") == "";
  }

  /** A trailing '&' always makes the parse fail. */
  lemma TrailingAmpRefused(cfg: Config, p: string)
    ensures ApplyParams(cfg, Segments(p + "&")).Failure?
  {
    SegmentsTrailingAmp(p);
    ApplyParamsAppend(cfg, Segments(p), [""]);
    assert KeyOf("") == "";
  }

  /** The configurations that survive printing and parsing again. */
  predicate Formattable(cfg: Config) {
    && ':' !in cfg.user && '@' !in cfg.user && '@' !in cfg.passwd
    && ':' !in cfg.host && '(' !in cfg.host && ')' !in cfg.host && '/' !in cfg.host && '@' !in cfg.host
    && '?' !in cfg.dbname
    && (cfg.user == "" && cfg.passwd == "" ==> '@' !in cfg.dbname)
  }

  /** Besides the host's own characters, the address text holds only "tcp", parentheses, ':' and the port's digits. */
  lemma AddressTextChars(host: string, port: int32)
    ensures forall c :: c in AddressText(host, port) && c !in host ==> c in "tcp():-0123456789"
  {
    var pt := IntToString(port);
    assert forall c :: c in pt ==> c in "-0123456789";
  }

  /** `host:port` parses back to host and port when the host has no ':'. */
  lemma TcpAddressRoundTrip(base: Config, host: string, port: int32)
    requires ':' !in host
    ensures ParseTcpAddress(base, host + ":" + IntToString(port)) == Success(base.(host := host, port := port))
  {
    var pt := IntToString(port);
    SplitAt(host, ':', pt);
    StolOfIntToString(port, "");
    assert pt + "" == pt;
  }

  /** The address part `tcp(host:port)` parses back to host and port. */
  lemma AddressRoundTrip(base: Config, host: string, port: int32)
    requires ':' !in host && '(' !in host && ')' !in host
    ensures ParseProtocolAddress(base, AddressText(host, port)) == Success(base.(host := host, port := port))
  {
    var pt := IntToString(port);
    var inner := host + ":" + pt;
    assert ')' !in inner && '(' !in inner by {
      assert ')' !in pt && '(' !in pt;
      assert inner == host + (":" + pt);
    }
    ProtocolTailIgnored(base, inner, "");
    Associative("tcp(", host, ":", pt);
    assert "tcp(" + inner + ")" + "" == "tcp(" + inner + ")";
    TcpAddressRoundTrip(base, host, port);
  }

  /** The userinfo the printer writes parses back to user and passwd, leaving the text after it. */
  lemma UserinfoRoundTrip(cfg: Config, body: string)
    requires ':' !in cfg.user && '@' !in cfg.user && '@' !in cfg.passwd
    requires UserinfoText(cfg) == "" ==> '@' !in body
    ensures WithUserinfo(UserinfoText(cfg) + body) == DEFAULT.(user := cfg.user, passwd := cfg.passwd)
    ensures AfterUserinfo(UserinfoText(cfg) + body) == body
  {
    var dsn := UserinfoText(cfg) + body;
    if |cfg.user| > 0 || |cfg.passwd| > 0 {
      var info := cfg.user + ":" + cfg.passwd;
      assert '@' !in info;
      assert dsn == info + "@" + body;
      SplitAt(info, '@', body);
      SplitAt(cfg.user, ':', cfg.passwd);
    } else {
      assert dsn == body;
      FindAbsent(body, '@');
    }
  }

  /** After the userinfo: the printed address up to '/' parses back, leaving the text after '/'. */
  lemma AfterUserinfoRoundTrip(base: Config, host: string, port: int32, after: string)
    requires ':' !in host && '(' !in host && ')' !in host && '/' !in host
    ensures ParseAfterUserinfo(base, AddressText(host, port) + "/" + after)
         == ParseDbnameAndParams(base.(host := host, port := port), after)
  {
    var address := AddressText(host, port);
    AddressTextChars(host, port);
    assert '/' !in address;
    SplitAt(address, '/', after);
    AddressRoundTrip(base, host, port);
  }

  /** dbname up to '?' parses back, and the parameters after '?' are applied. */
  lemma DbnameRoundTrip(c: Config, dbname: string, suffix: string)
    requires '?' !in dbname
    requires suffix == "" || suffix[0] == '?'
    ensures ParseDbnameAndParams(c, dbname + suffix)
         == if suffix == "" then Success(c.(dbname := dbname))
            else ApplyParams(c.(dbname := dbname), Segments(suffix[1..]))
  {
    if suffix == "" {
      assert dbname + suffix == dbname;
      FindAbsent(dbname, '?');
    } else {
      assert dbname + suffix == dbname + "?" + suffix[1..];
      SplitAt(dbname, '?', suffix[1..]);
    }
  }

  /** Parsing a DSN that starts with a printed userinfo continues after it with user and passwd set. */
  lemma ParseAfterPrintedUserinfo(cfg: Config, body: string)
    requires ':' !in cfg.user && '@' !in cfg.user && '@' !in cfg.passwd
    requires UserinfoText(cfg) == "" ==> '@' !in body
    ensures Parse(UserinfoText(cfg) + body) == ParseAfterUserinfo(DEFAULT.(user := cfg.user, passwd := cfg.passwd), body)
  {
    UserinfoRoundTrip(cfg, body);
  }

  lemma Regroup(a: string, b: string, c: string, d: string, e: string)
    ensures a + b + c + d + e == a + (b + c + (d + e))
  {
  }

  /**
   * Printing a formattable configuration and parsing it again, with nothing
   * or a parameter string after it, gives back user, passwd, host, port and
   * dbname, with the parameters then applied to their defaults.
   */
  lemma ParseFormatted(cfg: Config, suffix: string)
    requires Formattable(cfg)
    requires suffix == "" || suffix[0] == '?'
    requires cfg.user == "" && cfg.passwd == "" ==> '@' !in suffix
    ensures Parse(Format(cfg) + suffix)
         == if suffix == "" then Success(WithDefaultParams(cfg))
            else ApplyParams(WithDefaultParams(cfg), Segments(suffix[1..]))
  {
    var after := cfg.dbname + suffix;
    var body := AddressText(cfg.host, cfg.port) + "/" + after;
    PrintedBody(cfg, suffix);
    var base := DEFAULT.(user := cfg.user, passwd := cfg.passwd);
    ParseAfterPrintedUserinfo(cfg, body);
    AfterUserinfoRoundTrip(base, cfg.host, cfg.port, after);
    DbnameRoundTrip(base.(host := cfg.host, port := cfg.port), cfg.dbname, suffix);
    assert base.(host := cfg.host, port := cfg.port).(dbname := cfg.dbname) == WithDefaultParams(cfg);
  }

  /** The printed DSN with a suffix is the userinfo, then the address, '/', dbname and suffix. */
  lemma PrintedBody(cfg: Config, suffix: string)
    requires Formattable(cfg)
    requires cfg.user == "" && cfg.passwd == "" ==> '@' !in suffix
    ensures Format(cfg) + suffix == UserinfoText(cfg) + (AddressText(cfg.host, cfg.port) + "/" + (cfg.dbname + suffix))
    ensures UserinfoText(cfg) == "" ==> '@' !in AddressText(cfg.host, cfg.port) + "/" + (cfg.dbname + suffix)
  {
    var address := AddressText(cfg.host, cfg.port);
    Regroup(UserinfoText(cfg), address, "/", cfg.dbname, suffix);
    if UserinfoText(cfg) == "" {
      AddressTextChars(cfg.host, cfg.port);
      assert '@' !in address && '@' !in cfg.dbname + suffix;
    }
  }

  /** `parse(format(cfg))` restores everything `format` writes. */
  lemma ParseFormat(cfg: Config)
    requires Formattable(cfg)
    ensures Parse(Format(cfg)) == Success(WithDefaultParams(cfg))
  {
    ParseFormatted(cfg, "");
    assert Format(cfg) + "" == Format(cfg);
  }

  /** `format(parse(dsn)) == dsn` for every DSN that is some formattable configuration's text. */
  lemma FormatParse(cfg: Config, dsn: string)
    requires Formattable(cfg) && dsn == Format(cfg)
    ensures Parse(dsn).Success? && Format(Parse(dsn).value) == dsn
  {
    ParseFormat(cfg);
  }

  const TEST_CONFIG: Config := DEFAULT.(user := "root", passwd := "toor", host := "10.10.2.3",
                                        port := 4455, dbname := "testdb")

  lemma PortText()
    ensures IntToString(4455) == "4455"
  {
    assert NatToString(4) == "4";
    assert NatToString(44) == "44";
    assert NatToString(445) == "445";
  }

  lemma TestHostFormattable()
    ensures ':' !in TEST_CONFIG.host && '(' !in TEST_CONFIG.host && ')' !in TEST_CONFIG.host
    ensures '/' !in TEST_CONFIG.host && '@' !in TEST_CONFIG.host
  {
  }

  lemma TestConfigFormattable()
    ensures Formattable(TEST_CONFIG)
  {
    TestHostFormattable();
  }

  lemma TestAddressText()
    ensures AddressText("10.10.2.3", 4455) == "tcp(10.10.2.3:4455)"
  {
    PortText();
  }

  lemma TestUserinfoText()
    ensures UserinfoText(TEST_CONFIG) == "root:toor@"
  {
  }

  lemma TestDsnPieces()
    ensures "root:toor@" + "tcp(10.10.2.3:4455)" + "/" + "testdb" == "root:toor@tcp(10.10.2.3:4455)/testdb"
  {
  }

  lemma FormatTestConfig()
    ensures Format(TEST_CONFIG) == "root:toor@tcp(10.10.2.3:4455)/testdb"
  {
    TestAddressText();
    TestUserinfoText();
    TestDsnPieces();
  }

  /** The repository's basic DSN test: the fields it expects, and the text they print as. */
  lemma ParseBasicDsn()
    ensures Parse("root:toor@tcp(10.10.2.3:4455)/testdb") == Success(TEST_CONFIG)
    ensures Format(TEST_CONFIG) == "root:toor@tcp(10.10.2.3:4455)/testdb"
  {
    FormatTestConfig();
    TestConfigFormattable();
    ParseFormat(TEST_CONFIG);
  }

  /** The printing test: the basic DSN, parsed and printed again, is unchanged. */
  lemma ToStringOfParsed()
    ensures Parse("root:toor@tcp(10.10.2.3:4455)/testdb").Success?
    ensures Format(Parse("root:toor@tcp(10.10.2.3:4455)/testdb").value) == "root:toor@tcp(10.10.2.3:4455)/testdb"
  {
    ParseBasicDsn();
  }

  lemma KvSplit(k: string, v: string)
    requires '=' !in k
    ensures KeyOf(k + "=" + v) == k && ValueOf(k + "=" + v) == v
  {
    assert k + "=" + v == k + ("=" + v);
    FindAfter(k, "=" + v, '=');
    assert (k + "=" + v)[..|k|] == k;
    assert (k + "=" + v)[|k| + 1..] == v;
  }

  lemma StolOfNat(n: nat, text: string)
    requires n < TWO_31 && text == NatToString(n)
    ensures Stol(text) == Success(n as int64) && WrapInt32(n) == n
  {
    StolOfIntToString(n as int64, "");
    assert IntToString(n) + "" == text;
  }

  /** `key=value` for a known parameter. */
  function ParamText(key: ParamKey, value: string): string {
    KeyName(key) + "=" + value
  }

  /** A `key=value` segment for a known key sets that parameter from the value. */
  lemma ParamTextParsed(c: Config, key: ParamKey, value: string)
    ensures ParseKvParam(c, ParamText(key, value)) == SetParam(c, key, value)
  {
    assert '=' !in KeyName(key);
    KvSplit(KeyName(key), value);
    KeyForKeyName(key);
  }

  /** `c` with the integer parameter `key` set to `n`. */
  function WithIntParam(c: Config, key: ParamKey, n: int32): Config {
    match key
    case Timeout => c.(timeout := n)
    case ReadTimeout => c.(readTimeout := n)
    case WriteTimeout => c.(writeTimeout := n)
    case Reconnect => c.(reconnect := n)
    case Charset => c
  }

  /** An integer parameter written in decimal is read back exactly. */
  lemma IntParamRoundTrip(c: Config, key: ParamKey, n: int32)
    requires key != Charset
    ensures SetParam(c, key, IntToString(n)) == Success(WithIntParam(c, key, n))
  {
    StolOfIntToString(n as int64, "");
    assert IntToString(n) + "" == IntToString(n);
    assert ParseInt32(IntToString(n)) == Success(n);
  }

  lemma ApplyCons(c: Config, p: string, rest: seq<string>)
    ensures ParseKvParam(c, p).Failure? ==> ApplyParams(c, [p] + rest) == Failure(ParseKvParam(c, p).error)
    ensures ParseKvParam(c, p).Success? ==> ApplyParams(c, [p] + rest) == ApplyParams(ParseKvParam(c, p).value, rest)
  {
    assert ([p] + rest)[0] == p && ([p] + rest)[1..] == rest;
  }

  lemma IntParamStep(c: Config, key: ParamKey, n: int32, rest: seq<string>)
    requires key != Charset
    ensures ApplyParams(c, [ParamText(key, IntToString(n))] + rest) == ApplyParams(WithIntParam(c, key, n), rest)
  {
    ApplyCons(c, ParamText(key, IntToString(n)), rest);
    ParamTextParsed(c, key, IntToString(n));
    IntParamRoundTrip(c, key, n);
  }

  function QueryParts(t: int32, rt: int32, wt: int32, rc: int32, cs: string): seq<string> {
    [ParamText(Timeout, IntToString(t))] + ([ParamText(ReadTimeout, IntToString(rt))]
    + ([ParamText(WriteTimeout, IntToString(wt))] + ([ParamText(Reconnect, IntToString(rc))]
    + [ParamText(Charset, cs)])))
  }

  /** All five parameters, each written once, are each read back. */
  lemma AllParamsApplied(c: Config, t: int32, rt: int32, wt: int32, rc: int32, cs: string)
    ensures ApplyParams(c, QueryParts(t, rt, wt, rc, cs))
         == Success(c.(timeout := t, readTimeout := rt, writeTimeout := wt, reconnect := rc, charset := cs))
  {
    var c1 := c.(timeout := t);
    var c2 := c1.(readTimeout := rt);
    var c3 := c2.(writeTimeout := wt);
    var c4 := c3.(reconnect := rc);
    var last := [ParamText(Charset, cs)];
    var p3 := [ParamText(Reconnect, IntToString(rc))] + last;
    var p2 := [ParamText(WriteTimeout, IntToString(wt))] + p3;
    var p1 := [ParamText(ReadTimeout, IntToString(rt))] + p2;
    IntParamStep(c, Timeout, t, p1);
    IntParamStep(c1, ReadTimeout, rt, p2);
    IntParamStep(c2, WriteTimeout, wt, p3);
    IntParamStep(c3, Reconnect, rc, last);
    ApplyCons(c4, ParamText(Charset, cs), []);
    assert last == [ParamText(Charset, cs)] + [];
    ParamTextParsed(c4, Charset, cs);
  }

  /** A character the key and the value lack is not in `key=value`, unless it is '='. */
  lemma ParamTextAvoids(key: ParamKey, value: string, ch: char)
    requires ch != '=' && ch in "&@?" && ch !in value
    ensures ch !in ParamText(key, value)
  {
  }

  lemma {:induction false} JoinAmpAvoids(parts: seq<string>, ch: char)
    requires ch != '&'
    requires forall i :: 0 <= i < |parts| ==> ch !in parts[i]
    ensures ch !in JoinAmp(parts)
    decreases |parts|
  {
    if |parts| > 1 {
      JoinAmpAvoids(parts[1..], ch);
    }
  }

  lemma AllPartsAvoid(t: int32, rt: int32, wt: int32, rc: int32, cs: string, ch: char)
    requires ch in "&@" && ch !in cs
    ensures forall i :: 0 <= i < 5 ==> ch !in QueryParts(t, rt, wt, rc, cs)[i]
  {
    IntToStringAvoids(t, ch);
    IntToStringAvoids(rt, ch);
    IntToStringAvoids(wt, ch);
    IntToStringAvoids(rc, ch);
    ParamTextAvoids(Timeout, IntToString(t), ch);
    ParamTextAvoids(ReadTimeout, IntToString(rt), ch);
    ParamTextAvoids(WriteTimeout, IntToString(wt), ch);
    ParamTextAvoids(Reconnect, IntToString(rc), ch);
    ParamTextAvoids(Charset, cs, ch);
  }

  /**
   * A printed configuration followed by all five parameters, as in the
   * repository's DSN test, parses to that configuration with those parameters.
   */
  lemma ParseWithAllParams(cfg: Config, t: int32, rt: int32, wt: int32, rc: int32, cs: string)
    requires Formattable(cfg)
    requires '&' !in cs
    requires cfg.user == "" && cfg.passwd == "" ==> '@' !in cs
    ensures Parse(Format(cfg) + "?" + JoinAmp(QueryParts(t, rt, wt, rc, cs)))
         == Success(cfg.(timeout := t, readTimeout := rt, writeTimeout := wt, reconnect := rc, charset := cs))
  {
    var parts := QueryParts(t, rt, wt, rc, cs);
    var joined := JoinAmp(parts);
    var suffix := "?" + joined;
    if cfg.user == "" && cfg.passwd == "" {
      AllPartsAvoid(t, rt, wt, rc, cs, '@');
      JoinAmpAvoids(parts, '@');
      assert '@' !in suffix;
    }
    assert suffix[1..] == joined;
    assert Format(cfg) + "?" + joined == Format(cfg) + suffix;
    ParseFormatted(cfg, suffix);
    AllPartsAvoid(t, rt, wt, rc, cs, '&');
    SegmentsOfJoin(parts);
    AllParamsApplied(WithDefaultParams(cfg), t, rt, wt, rc, cs);
  }

  /** A protocol other than "tcp" before the first '(' is refused, whatever follows. */
  lemma UnsupportedProtocolRefused(cfg: Config, protocol: string, rest: string)
    requires '(' !in protocol && protocol != "tcp"
    ensures ParseProtocolAddress(cfg, protocol + "(" + rest) == Failure(UnsupportedProtocol(protocol))
  {
    SplitAt(protocol, '(', rest);
  }

  /** "tcp(" with no ')' after it is refused. */
  lemma UnclosedAddressRefused(cfg: Config, inner: string)
    requires ')' !in inner
    ensures ParseProtocolAddress(cfg, "tcp(" + inner) == Failure(InvalidAddress)
  {
    assert "tcp(" + inner == "tcp" + ['('] + inner;
    SplitAt("tcp", '(', inner);
    assert ')' !in "tcp(" + inner;
  }

  /** A failing address fails the whole DSN, whatever the userinfo before it and the text after its '/'. */
  lemma AddressFailureFailsParse(cfg: Config, address: string, after: string)
    requires ':' !in cfg.user && '@' !in cfg.user && '@' !in cfg.passwd
    requires '/' !in address && '@' !in address
    requires UserinfoText(cfg) == "" ==> '@' !in after
    requires ParseProtocolAddress(DEFAULT.(user := cfg.user, passwd := cfg.passwd), address).Failure?
    ensures Parse(UserinfoText(cfg) + address + "/" + after)
         == ParseProtocolAddress(DEFAULT.(user := cfg.user, passwd := cfg.passwd), address)
  {
    var body := address + "/" + after;
    Associative(UserinfoText(cfg), address, "/", after);
    assert UserinfoText(cfg) == "" ==> '@' !in body;
    var base := DEFAULT.(user := cfg.user, passwd := cfg.passwd);
    UserinfoRoundTrip(cfg, body);
    assert Parse(UserinfoText(cfg) + body) == ParseAfterUserinfo(base, body);
    SplitAt(address, '/', after);
    assert ParseAfterUserinfo(base, body) == ParseProtocolAddress(base, address);
  }

  lemma JoinAmpCons(p: string, rest: seq<string>)
    requires |rest| >= 1
    ensures JoinAmp([p] + rest) == p + "&" + JoinAmp(rest)
  {
    assert ([p] + rest)[0] == p && ([p] + rest)[1..] == rest;
  }

  lemma TestTimeoutText()
    ensures ParamText(Timeout, IntToString(10)) == "timeout=10"
  {
    assert NatToString(10) == "10";
  }

  lemma TestReadTimeoutText()
    ensures ParamText(ReadTimeout, IntToString(6)) == "read_timeout=6"
  {
  }

  lemma TestWriteTimeoutText()
    ensures ParamText(WriteTimeout, IntToString(8)) == "write_timeout=8"
  {
  }

  lemma TestReconnectText()
    ensures ParamText(Reconnect, IntToString(0)) == "reconnect=0"
  {
  }

  lemma TestCharsetText()
    ensures ParamText(Charset, "utf-8") == "charset=utf-8"
  {
  }

  lemma TestQueryJoined()
    ensures JoinAmp(QueryParts(10, 6, 8, 0, "utf-8"))
         == "timeout=10" + "&" + ("read_timeout=6" + "&" + ("write_timeout=8" + "&" + ("reconnect=0" + "&" + "charset=utf-8")))
  {
    TestTimeoutText();
    TestReadTimeoutText();
    TestWriteTimeoutText();
    TestReconnectText();
    TestCharsetText();
    var last := [ParamText(Charset, "utf-8")];
    var p3 := [ParamText(Reconnect, IntToString(0))] + last;
    var p2 := [ParamText(WriteTimeout, IntToString(8))] + p3;
    var p1 := [ParamText(ReadTimeout, IntToString(6))] + p2;
    JoinAmpCons(ParamText(Timeout, IntToString(10)), p1);
    JoinAmpCons(ParamText(ReadTimeout, IntToString(6)), p2);
    JoinAmpCons(ParamText(WriteTimeout, IntToString(8)), p3);
    JoinAmpCons(ParamText(Reconnect, IntToString(0)), last);
  }

  lemma RegroupQuery(a: string, t: string, r: string, w: string, c: string, x: string)
    ensures a + "?" + (t + "&" + (r + "&" + (w + "&" + (c + "&" + x))))
         == a + ("?" + t) + ("&" + r) + ("&" + w) + ("&" + c) + ("&" + x)
  {
  }

  lemma TestQuerySeparators()
    ensures "?" + "timeout=10" == "?timeout=10"
    ensures "&" + "read_timeout=6" == "&read_timeout=6"
    ensures "&" + "write_timeout=8" == "&write_timeout=8"
    ensures "&" + "reconnect=0" == "&reconnect=0"
    ensures "&" + "charset=utf-8" == "&charset=utf-8"
  {
  }

  /** The repository's DSN test with all five parameters. */
  lemma ParseDsnWithQuery()
    ensures Parse("root:toor@tcp(10.10.2.3:4455)/testdb" + "?timeout=10" + "&read_timeout=6"
                  + "&write_timeout=8" + "&reconnect=0" + "&charset=utf-8")
         == Success(TEST_CONFIG.(timeout := 10, readTimeout := 6, writeTimeout := 8, reconnect := 0, charset := "utf-8"))
  {
    FormatTestConfig();
    TestConfigFormattable();
    TestQueryJoined();
    RegroupQuery(Format(TEST_CONFIG), "timeout=10", "read_timeout=6", "write_timeout=8", "reconnect=0", "charset=utf-8");
    TestQuerySeparators();
    assert '&' !in "utf-8";
    ParseWithAllParams(TEST_CONFIG, 10, 6, 8, 0, "utf-8");
  }
}

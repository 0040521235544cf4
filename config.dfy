/**
 * Application configuration (internal/app/config.go): the `.env` loader that
 * copies `NAME=VALUE` rows into the process environment, and the HTTP server
 * settings read from the environment with their defaults. The environment is
 * a map; reading the file, `os.Setenv` and `time.ParseDuration` are inputs.
 */
module Config {
  import opened Wrappers
  import opened GoErrors
  import opened GoStrings

  /** The process environment. */
  type Env = map<string, string>

  /** `os.LookupEnv(name)`, falling back to `dflt` when the variable is unset. */
  function LookupOr(env: Env, name: string, dflt: string): (v: string)
    ensures name in env ==> v == env[name]
    ensures name !in env ==> v == dflt
  {
    if name in env then env[name] else dflt
  }

  const DefaultConfigFilePath := ".env"
  const DefaultHttpServerCertificateFilePath := "server.crt"
  const DefaultHttpServerKeyFilePath := "server.key"
  const DefaultHttpServerReadTimeout := "15m"
  const DefaultHttpServerWriteTimeout := "15m"
  const DefaultHttpServerGracefulShutdownTimeout := "2m"
  const DefaultAppRestApiPort := "3005"
  const DefaultDatabaseQueryTimeout := "30s"
  const DefaultBodyMaxSize: nat := 1024 * 1024 * 1024 * 10

  // ------------------------------------------------------------ config rows

  /**
   * The row regexp `(.+)=(.+)`, with both groups trimmed of spaces. Rows
   * come from splitting the file on "\n", so the regexp's '.' matches every
   * character of a row.
   */
  function ParseConfigRow(row: string): Option<(string, string)>
  {
    match LastSplit(row, "=")
    case None => None
    case Some(k) => Some((Trim(row[..k]), Trim(row[k + 1..])))
  }

  /**
   * A row matches when some '=' has a character before and after it; the
   * greedy first group ends at the last such '=', and both sides are
   * trimmed of spaces.
   */
  lemma ParseConfigRowMeaning(row: string)
    ensures ParseConfigRow(row).None? <==> forall k :: !SplitsAt(row, "=", k)
    ensures ParseConfigRow(row).Some? ==>
      exists k :: SplitsAt(row, "=", k) && (forall j :: k < j ==> !SplitsAt(row, "=", j))
                  && ParseConfigRow(row).value == (Trim(row[..k]), Trim(row[k + 1..]))
  {
    var last := LastSplit(row, "=");
    if last.Some? {
      var k := last.value;
      assert ParseConfigRow(row) == Some((Trim(row[..k]), Trim(row[k + 1..])));
      assert SplitsAt(row, "=", k) && (forall j :: k < j ==> !SplitsAt(row, "=", j));
    } else {
      assert ParseConfigRow(row) == None;
    }
  }

  /**
   * A row with several '=' is split at the last one: "a=b=c" parses as the
   * name "a=b" and the value "c" (a name `os.Setenv` then refuses, see
   * `ApplyRowsRefusedName`).
   */
  lemma ParseConfigRowLastEquals()
    ensures ParseConfigRow("a=b=c") == Some(("a=b", "c"))
  {
    var row := "a=b=c";
    assert LastSplit(row, "=") == Some(3) by {
      assert row[3..4] == "=";
      assert SplitsAt(row, "=", 3);
    }
    assert row[..3] == "a=b" && row[4..] == "c";
    assert Trim("a=b") == "a=b" by { assert TrimLeft("a=b") == "a=b"; }
    assert Trim("c") == "c" by { assert TrimLeft("c") == "c"; }
  }

  /** One character between two spaces trims to that character. */
  lemma TrimPadded(c: char)
    requires c != ' '
    ensures Trim([' ', c, ' ']) == [c]
  {
    assert [' ', c, ' '][1..] == [c, ' '];
    assert TrimLeft([c, ' ']) == [c, ' '];
    assert TrimLeft([' ', c, ' ']) == [c, ' '];
    assert [c, ' '][..1] == [c];
  }

  /** Spaces around the name and the value are dropped. */
  lemma ParseConfigRowTrims()
    ensures ParseConfigRow(" K = v ") == Some(("K", "v"))
  {
    var row := " K = v ";
    assert LastSplit(row, "=") == Some(3) by {
      assert row[3..4] == "=";
      assert SplitsAt(row, "=", 3);
      assert row[4..5] == " " && row[5..6] == "v";
    }
    assert row[..3] == [' ', 'K', ' '] && row[4..] == [' ', 'v', ' '];
    TrimPadded('K');
    TrimPadded('v');
  }

  /** A row needs a character on each side of some '=': "=x", "x=" and "x" set nothing. */
  lemma ParseConfigRowNeedsBothSides()
    ensures ParseConfigRow("=x") == None && ParseConfigRow("x=") == None && ParseConfigRow("x") == None
  {
  }

  /**
   * The rows from `i` on, applied in order: a parsed row sets its variable,
   * other rows are skipped, and the first failing `Setenv` stops the loop with
   * the variables set so far kept.
   */
  function ApplyRows(env: Env, rows: seq<string>, setenv: (string, string) -> Option<Error>, i: nat): (r: (Env, Option<Error>))
    requires i <= |rows|
    decreases |rows| - i
  {
    if i == |rows| then (env, None)
    else
      match ParseConfigRow(rows[i])
      case None => ApplyRows(env, rows, setenv, i + 1)
      case Some((name, value)) =>
        match setenv(name, value)
        case Some(e) => (env, Some(Wrapped("unable to set environment variable '" + name + "'", e)))
        case None => ApplyRows(env[name := value], rows, setenv, i + 1)
  }

  /** Row `k` is a `NAME=VALUE` row for the variable `name`. */
  predicate SetsName(rows: seq<string>, k: nat, name: string)
    requires k < |rows|
  {
    ParseConfigRow(rows[k]).Some? && ParseConfigRow(rows[k]).value.0 == name
  }

  /** Every `Setenv` call that rows `i` on make succeeds. */
  predicate RowsAccepted(rows: seq<string>, setenv: (string, string) -> Option<Error>, i: nat)
  {
    forall j :: i <= j < |rows| && ParseConfigRow(rows[j]).Some? ==>
      setenv(ParseConfigRow(rows[j]).value.0, ParseConfigRow(rows[j]).value.1).None?
  }

  /** When none of the rows' `Setenv` calls fails, every row is applied and no error is reported. */
  lemma {:induction false} ApplyRowsNoFailure(env: Env, rows: seq<string>, setenv: (string, string) -> Option<Error>, i: nat)
    requires i <= |rows|
    requires RowsAccepted(rows, setenv, i)
    ensures ApplyRows(env, rows, setenv, i).1.None?
    decreases |rows| - i
  {
    if i < |rows| {
      var p := ParseConfigRow(rows[i]);
      if p.Some? {
        assert setenv(p.value.0, p.value.1).None?;
        ApplyRowsNoFailure(env[p.value.0 := p.value.1], rows, setenv, i + 1);
      } else {
        ApplyRowsNoFailure(env, rows, setenv, i + 1);
      }
    }
  }

  /** One row of `ApplyRows`: a skipped row, a refused `Setenv`, or an accepted one. */
  lemma ApplyRowsAt(env: Env, rows: seq<string>, setenv: (string, string) -> Option<Error>, i: nat, name: string, value: string)
    requires i < |rows|
    ensures ParseConfigRow(rows[i]).None? ==> ApplyRows(env, rows, setenv, i) == ApplyRows(env, rows, setenv, i + 1)
    ensures ParseConfigRow(rows[i]) == Some((name, value)) && setenv(name, value).Some? ==>
      ApplyRows(env, rows, setenv, i) == (env, Some(Wrapped("unable to set environment variable '" + name + "'", setenv(name, value).value)))
    ensures ParseConfigRow(rows[i]) == Some((name, value)) && setenv(name, value).None? ==>
      ApplyRows(env, rows, setenv, i) == ApplyRows(env[name := value], rows, setenv, i + 1)
  {
  }

  /** A variable no remaining row names keeps its value (or stays unset). */
  lemma {:induction false} ApplyRowsUntouched(env: Env, rows: seq<string>, setenv: (string, string) -> Option<Error>, i: nat, name: string)
    requires i <= |rows|
    requires forall k :: i <= k < |rows| ==> !SetsName(rows, k, name)
    ensures var out := ApplyRows(env, rows, setenv, i).0;
      (name in out <==> name in env) && (name in env ==> out[name] == env[name])
    decreases |rows| - i
  {
    if i < |rows| {
      var p := ParseConfigRow(rows[i]);
      if p.None? {
        ApplyRowsAt(env, rows, setenv, i, "", "");
        ApplyRowsUntouched(env, rows, setenv, i + 1, name);
      } else {
        var n, v := p.value.0, p.value.1;
        assert n != name by { assert !SetsName(rows, i, name); }
        ApplyRowsAt(env, rows, setenv, i, n, v);
        if setenv(n, v).None? {
          ApplyRowsUntouched(env[n := v], rows, setenv, i + 1, name);
        }
      }
    }
  }

  /** When none of the rows' `Setenv` calls fails, a variable ends up with the value of the last row naming it. */
  lemma {:induction false} LaterRowWins(env: Env, rows: seq<string>, setenv: (string, string) -> Option<Error>, i: nat, k: nat, name: string)
    requires i <= k < |rows|
    requires RowsAccepted(rows, setenv, i)
    requires SetsName(rows, k, name)
    requires forall j :: k < j < |rows| ==> !SetsName(rows, j, name)
    ensures var out := ApplyRows(env, rows, setenv, i).0;
      name in out && out[name] == ParseConfigRow(rows[k]).value.1
    decreases |rows| - i
  {
    var p := ParseConfigRow(rows[i]);
    if i == k {
      assert setenv(p.value.0, p.value.1).None?;
      ApplyRowsUntouched(env[name := p.value.1], rows, setenv, i + 1, name);
    } else if p.Some? {
      assert setenv(p.value.0, p.value.1).None?;
      LaterRowWins(env[p.value.0 := p.value.1], rows, setenv, i + 1, k, name);
    } else {
      LaterRowWins(env, rows, setenv, i + 1, k, name);
    }
  }
  /**
   * A refused `Setenv` stops the loop: with `os.Setenv` refusing the name
   * "a=b" (it rejects names containing '='), the row "a=b=c" ends the
   * configuration with that error and sets nothing.
   */
  lemma ApplyRowsRefusedName(env: Env, setenv: (string, string) -> Option<Error>)
    requires setenv("a=b", "c").Some?
    ensures ApplyRows(env, ["a=b=c"], setenv, 0)
         == (env, Some(Wrapped("unable to set environment variable '" + "a=b" + "'", setenv("a=b", "c").value)))
  {
    var rows := ["a=b=c"];
    ParseConfigRowLastEquals();
    assert ParseConfigRow(rows[0]) == Some(("a=b", "c"));
  }


  /** The process environment the configuration writes into. */
  class Environment {
    var vars: Env

    constructor (initial: Env)
      ensures vars == initial
    {
      vars := initial;
    }

    /**
     * `SetUpEnvVarsFromConfig()`: read the file named by CONFIG_FILE_PATH
     * (default ".env"), split it into lines and apply them in order.
     */
    method SetUpEnvVarsFromConfig(readFile: string -> Result<string, Error>, setenv: (string, string) -> Option<Error>)
      returns (err: Option<Error>)
      modifies this
      ensures var path := LookupOr(old(vars), "CONFIG_FILE_PATH", DefaultConfigFilePath);
        match readFile(path)
        case Err(e) => err == Some(Wrapped("unable to read file '" + path + "'", e)) && vars == old(vars)
        case Ok(text) => (vars, err) == ApplyRows(old(vars), Split(text, '\n'), setenv, 0)
    {
      var configFilePath := LookupOr(vars, "CONFIG_FILE_PATH", DefaultConfigFilePath);
      var data := readFile(configFilePath);
      if data.Err? {
        return Some(Wrapped("unable to read file '" + configFilePath + "'", data.error));
      }
      err := SetRows(Split(data.value, '\n'), setenv);
    }

    /** The loop of `SetUpEnvVarsFromConfig` over the file's rows. */
    method SetRows(rows: seq<string>, setenv: (string, string) -> Option<Error>) returns (err: Option<Error>)
      modifies this
      ensures (vars, err) == ApplyRows(old(vars), rows, setenv, 0)
    {
      var i := 0;
      while i < |rows|
        invariant 0 <= i <= |rows|
        invariant ApplyRows(vars, rows, setenv, i) == ApplyRows(old(vars), rows, setenv, 0)
      {
        var parsed := ParseConfigRow(rows[i]);
        if parsed.Some? {
          var paramName, paramValue := parsed.value.0, parsed.value.1;
          var e := setenv(paramName, paramValue);
          if e.Some? {
            return Some(Wrapped("unable to set environment variable '" + paramName + "'", e.value));
          }
          vars := vars[paramName := paramValue];
        }
        i := i + 1;
      }
      return None;
    }
  }

  // ------------------------------------------------------------ HTTP server

  datatype HttpServerConfig = HttpServerConfig(
    Host: string,
    CertificateFilePath: string,
    KeyFilePath: string,
    ReadTimeout: int,
    WriteTimeout: int,
    GracefulShutdownTimeout: int)

  /** `NewHttpServerConfig()`: each setting from its variable or its default; durations through `parseDuration`. */
  function NewHttpServerConfig(env: Env, parseDuration: string -> Result<int, Error>): Result<HttpServerConfig, Error>
  {
    var port := LookupOr(env, "APP_REST_API_PORT", DefaultAppRestApiPort);
    var certPath := LookupOr(env, "APP_TLS_CERT_PATH", DefaultHttpServerCertificateFilePath);
    var keyPath := LookupOr(env, "APP_TLS_KEY_PATH", DefaultHttpServerKeyFilePath);
    match parseDuration(LookupOr(env, "APP_SERVER_READ_TIMEOUT", DefaultHttpServerReadTimeout))
    case Err(e) => Err(Wrapped("unable to configure server read timeout", e))
    case Ok(readTimeout) =>
      match parseDuration(LookupOr(env, "APP_SERVER_WRITE_TIMEOUT", DefaultHttpServerWriteTimeout))
      case Err(e) => Err(Wrapped("unable to configure server write timeout", e))
      case Ok(writeTimeout) =>
        match parseDuration(LookupOr(env, "APP_SERVER_GRACEFUL_SHUTDOWN_TIMEOUT", DefaultHttpServerGracefulShutdownTimeout))
        case Err(e) => Err(Wrapped("unable to configure server graceful shutdown timeout", e))
        case Ok(shutdownTimeout) =>
          Ok(HttpServerConfig(":" + port, certPath, keyPath, readTimeout, writeTimeout, shutdownTimeout))
  }

  /** On success the server listens on ":" followed by APP_REST_API_PORT (or its default). */
  lemma HttpServerHost(env: Env, parseDuration: string -> Result<int, Error>)
    ensures NewHttpServerConfig(env, parseDuration).Ok? ==>
      NewHttpServerConfig(env, parseDuration).value.Host == ":" + LookupOr(env, "APP_REST_API_PORT", DefaultAppRestApiPort)
  {
  }

  /**
   * With nothing set the server listens on ":3005" with "server.crt" and
   * "server.key", and the timeouts are the parsed "15m", "15m" and "2m".
   */
  lemma HttpServerConfigDefaults(parseDuration: string -> Result<int, Error>)
    requires parseDuration("15m").Ok? && parseDuration("2m").Ok?
    ensures NewHttpServerConfig(map[], parseDuration)
      == Ok(HttpServerConfig(":3005", "server.crt", "server.key",
                             parseDuration("15m").value, parseDuration("15m").value, parseDuration("2m").value))
  {
    var none: Env := map[];
    assert LookupOr(none, "APP_REST_API_PORT", DefaultAppRestApiPort) == "3005";
    assert LookupOr(none, "APP_SERVER_READ_TIMEOUT", DefaultHttpServerReadTimeout) == "15m";
    assert LookupOr(none, "APP_SERVER_WRITE_TIMEOUT", DefaultHttpServerWriteTimeout) == "15m";
    assert LookupOr(none, "APP_SERVER_GRACEFUL_SHUTDOWN_TIMEOUT", DefaultHttpServerGracefulShutdownTimeout) == "2m";
    assert ":" + "3005" == ":3005";
  }
}

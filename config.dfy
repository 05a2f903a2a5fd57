/** The process environment as the handlers read it: `_load_int` (an integer setting
    with a fallback), `_env` (a required setting) and the `SMS_DEV_ECHO` switch. The
    environment is passed in as a map from variable names to values. */
module Config {
  import opened Wrappers
  import opened PyStr
  import opened Py

  type Env = map<string, string>

  /** `_load_int(key, fallback)`: `int(os.environ.get(key, fallback))`, falling back when
      the variable is missing or is not an integer. */
  function LoadInt(env: Env, key: string, fallback: int): (r: int)
    ensures key !in env ==> r == fallback
    ensures key in env && IntOfString(env[key]).Some? ==> r == IntOfString(env[key]).value
    ensures key in env && IntOfString(env[key]).None? ==> r == fallback
  {
    if key in env then IntOfString(env[key]).GetOr(fallback) else fallback
  }

  /** A variable holding the decimal text of `n` configures `n`. */
  lemma {:induction false} LoadIntOfDecimal(env: Env, key: string, fallback: int, n: int)
    requires key in env && env[key] == IntToDecimal(n)
    ensures LoadInt(env, key, fallback) == n
  {
    IntOfStringOfDecimal(n);
  }

  /** `_env(name)`: the value of a required variable; a missing or empty one raises
      `RuntimeError`. */
  function RequireEnv(env: Env, name: string): (r: Result<string, PyError>)
    ensures r.Ok? <==> name in env && env[name] != ""
    ensures r.Ok? ==> r.value == env[name]
    ensures r.Err? ==> r.error == RuntimeError("Missing required environment variable " + name)
  {
    if name in env && env[name] != "" then Ok(env[name])
    else Err(RuntimeError("Missing required environment variable " + name))
  }

  const DevEchoVariable := "SMS_DEV_ECHO"

  /** `os.environ.get("SMS_DEV_ECHO", "").lower() == "true"` */
  predicate DevEcho(env: Env) {
    Lower(if DevEchoVariable in env then env[DevEchoVariable] else "") == "true"
  }

  /** The switch is on exactly for the four letters of `true` in any mix of cases. */
  lemma {:induction false} DevEchoIff(env: Env)
    ensures DevEcho(env) <==>
      DevEchoVariable in env && |env[DevEchoVariable]| == 4 &&
      (env[DevEchoVariable][0] == 't' || env[DevEchoVariable][0] == 'T') &&
      (env[DevEchoVariable][1] == 'r' || env[DevEchoVariable][1] == 'R') &&
      (env[DevEchoVariable][2] == 'u' || env[DevEchoVariable][2] == 'U') &&
      (env[DevEchoVariable][3] == 'e' || env[DevEchoVariable][3] == 'E')
  {
    var v := if DevEchoVariable in env then env[DevEchoVariable] else "";
    if |v| == 4 {
      var l := Lower(v);
      assert l == "true" <==> l[0] == 't' && l[1] == 'r' && l[2] == 'u' && l[3] == 'e';
    }
  }
}

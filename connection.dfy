/** The database settings: each of the five connection parameters is read from
    the environment with a fallback default, and the five are joined into the
    MySQL data source name (DSN). The environment is a parameter. */
module Database {

  /** The process environment: variable name to value. */
  type Env = map<string, string>

  /** `os.Getenv`: the variable's value, or the empty string when it is unset. */
  function Getenv(env: Env, key: string): string
  {
    if key in env then env[key] else ""
  }

  /** The variable's value when it is set to something non-empty, the default
      otherwise: an empty value counts as unset. */
  function GetEnv(env: Env, key: string, defaultValue: string): (r: string)
    ensures key in env && env[key] != "" ==> r == env[key]
    ensures key !in env || env[key] == "" ==> r == defaultValue
    ensures defaultValue != "" ==> r != ""
  {
    var value := Getenv(env, key);
    if value != "" then value else defaultValue
  }

  /** The five connection parameters. */
  datatype Config = Config(host: string, port: string, user: string, password: string, name: string)

  /** Whether `key` is unset or empty, so that its default applies. */
  predicate Unset(env: Env, key: string)
  {
    key !in env || env[key] == ""
  }

  /** Reads the five parameters with their defaults. */
  function LoadConfig(env: Env): (c: Config)
    ensures c.host != "" && c.port != "" && c.user != "" && c.password != "" && c.name != ""
    ensures Unset(env, "DB_HOST") ==> c.host == "localhost"
    ensures Unset(env, "DB_PORT") ==> c.port == "3306"
    ensures Unset(env, "DB_USER") ==> c.user == "root"
    ensures Unset(env, "DB_PASSWORD") ==> c.password == "password"
    ensures Unset(env, "DB_NAME") ==> c.name == "crud_app"
    ensures !Unset(env, "DB_HOST") ==> c.host == env["DB_HOST"]
    ensures !Unset(env, "DB_PORT") ==> c.port == env["DB_PORT"]
    ensures !Unset(env, "DB_USER") ==> c.user == env["DB_USER"]
    ensures !Unset(env, "DB_PASSWORD") ==> c.password == env["DB_PASSWORD"]
    ensures !Unset(env, "DB_NAME") ==> c.name == env["DB_NAME"]
  {
    Config(
      host := GetEnv(env, "DB_HOST", "localhost"),
      port := GetEnv(env, "DB_PORT", "3306"),
      user := GetEnv(env, "DB_USER", "root"),
      password := GetEnv(env, "DB_PASSWORD", "password"),
      name := GetEnv(env, "DB_NAME", "crud_app"))
  }

  /** The DSN `user:password@tcp(host:port)/name`. */
  function Dsn(c: Config): (d: string)
    ensures |d| == |c.user| + |c.password| + |c.host| + |c.port| + |c.name| + 9
  {
    c.user + ":" + c.password + "@tcp(" + c.host + ":" + c.port + ")/" + c.name
  }

  /** With nothing set, the DSN points at the local default database. */
  lemma DefaultDsn(env: Env)
    requires Unset(env, "DB_HOST") && Unset(env, "DB_PORT") && Unset(env, "DB_USER")
    requires Unset(env, "DB_PASSWORD") && Unset(env, "DB_NAME")
    ensures Dsn(LoadConfig(env)) == "root:password@tcp(localhost:3306)/crud_app"
  {
  }

  /** The index of the first `ch` in `s`, or `|s|` when there is none. */
  function IndexOf(s: string, ch: char): (i: nat)
    ensures i <= |s|
    ensures i < |s| ==> s[i] == ch
    ensures forall j :: 0 <= j < i ==> s[j] != ch
  {
    if s == [] then 0
    else if s[0] == ch then 0
    else 1 + IndexOf(s[1..], ch)
  }

  /** One past the index of the last `ch` in `s`, or 0 when there is none. */
  function AfterLast(s: string, ch: char): (i: nat)
    ensures i <= |s|
    ensures i > 0 ==> s[i - 1] == ch
    ensures forall j :: i <= j < |s| ==> s[j] != ch
  {
    if s == [] then 0
    else if s[|s| - 1] == ch then |s|
    else AfterLast(s[..|s| - 1], ch)
  }

  /** The DSN's user part: when the user name holds no ':', it is the text
      before the DSN's first ':'. */
  lemma DsnUser(c: Config)
    requires ':' !in c.user
    ensures Dsn(c)[..IndexOf(Dsn(c), ':')] == c.user
  {
    var d := Dsn(c);
    assert d == c.user + (":" + c.password + "@tcp(" + c.host + ":" + c.port + ")/" + c.name);
    assert d[|c.user|] == ':';
    forall j | 0 <= j < |c.user| ensures d[j] != ':' {
      assert d[j] == c.user[j];
    }
    assert IndexOf(d, ':') == |c.user|;
  }

  /** The DSN's database part: when the database name holds no '/', it is the
      text after the DSN's last '/'. */
  lemma DsnName(c: Config)
    requires '/' !in c.name
    ensures Dsn(c)[AfterLast(Dsn(c), '/')..] == c.name
  {
    var d := Dsn(c);
    var prefix := c.user + ":" + c.password + "@tcp(" + c.host + ":" + c.port + ")/";
    assert d == prefix + c.name;
    assert d[|prefix| - 1] == '/';
    forall j | |prefix| <= j < |d| ensures d[j] != '/' {
      assert d[j] == c.name[j - |prefix|];
    }
    assert AfterLast(d, '/') == |prefix|;
  }
}

/**
 * Configuration loading of package `config`: the search for a `.env` file
 * and the construction of the configuration from environment variables
 * with defaults.
 *
 * The process environment is a map from variable names to values. Loading a
 * `.env` file (`godotenv.Load`) is a parameter: for each path it gives None
 * when the file loads and the error message when it does not.
 */
module Config {
  import opened Wrappers

  type Environment = map<string, string>

  type LoadError = string

  datatype ServerConfig = ServerConfig(port: string)

  datatype MongoDbConfig = MongoDbConfig(uri: string, database: string)

  datatype Config = Config(server: ServerConfig, mongoDb: MongoDbConfig, env: string)

  const DefaultPort: string := "8080"
  const DefaultMongoUri: string := "mongodb://localhost:27017"
  const DefaultMongoDatabase: string := "ecommerce"
  const DefaultEnvironment: string := "development"

  /** `os.Getenv`: the value of the variable, "" when it is unset. */
  function OsGetenv(env: Environment, key: string): (value: string)
    ensures key in env ==> value == env[key]
    ensures key !in env ==> value == ""
  {
    if key in env then env[key] else ""
  }

  /** `getEnv`: the variable's value when it is set and non-empty, the default otherwise. */
  function GetEnv(env: Environment, key: string, defaultValue: string): (value: string)
    ensures key in env && env[key] != "" ==> value == env[key]
    ensures key !in env || env[key] == "" ==> value == defaultValue
    ensures value == "" ==> defaultValue == ""
  {
    var v := OsGetenv(env, key);
    if v == "" then defaultValue else v
  }

  /** The MongoDB URI: `MONGODB_URI`, else the legacy `MDB_MCP_CONNECTION_STRING`, else the local default. */
  function MongoUri(env: Environment): (uri: string)
    ensures OsGetenv(env, "MONGODB_URI") != "" ==> uri == env["MONGODB_URI"]
    ensures OsGetenv(env, "MONGODB_URI") == "" && OsGetenv(env, "MDB_MCP_CONNECTION_STRING") != "" ==>
              uri == env["MDB_MCP_CONNECTION_STRING"]
    ensures OsGetenv(env, "MONGODB_URI") == "" && OsGetenv(env, "MDB_MCP_CONNECTION_STRING") == "" ==>
              uri == DefaultMongoUri
  {
    GetEnv(env, "MONGODB_URI", GetEnv(env, "MDB_MCP_CONNECTION_STRING", DefaultMongoUri))
  }

  /** The configuration `Load` returns. No field is ever empty: each falls back to a non-empty default. */
  function BuildConfig(env: Environment): (c: Config)
    ensures c.server.port == GetEnv(env, "PORT", DefaultPort)
    ensures c.mongoDb.uri == MongoUri(env)
    ensures c.mongoDb.database == GetEnv(env, "MONGODB_DATABASE", DefaultMongoDatabase)
    ensures c.env == GetEnv(env, "ENV", DefaultEnvironment)
    ensures c.server.port != "" && c.mongoDb.uri != "" && c.mongoDb.database != "" && c.env != ""
  {
    Config(
      ServerConfig(GetEnv(env, "PORT", DefaultPort)),
      MongoDbConfig(MongoUri(env), GetEnv(env, "MONGODB_DATABASE", DefaultMongoDatabase)),
      GetEnv(env, "ENV", DefaultEnvironment))
  }

  /** With no variables set every field takes its default. */
  lemma DefaultConfig(env: Environment)
    requires forall k :: k in env ==> env[k] == ""
    ensures BuildConfig(env) == Config(ServerConfig("8080"), MongoDbConfig("mongodb://localhost:27017", "ecommerce"), "development")
  {
  }

  /** The places searched for a `.env` file, in order; the last one is relative to `$PWD` (read with `os.Getenv`). */
  function DotEnvPaths(env: Environment): (paths: seq<string>)
    ensures |paths| == 4
    ensures paths[..3] == [".env", "../.env", "../../.env"]
    ensures paths[3] == OsGetenv(env, "PWD") + "/.env"
  {
    [".env", "../.env", "../../.env", OsGetenv(env, "PWD") + "/.env"]
  }

  /**
   * The `.env` search loop of `Load`: try each path in order and stop at the
   * first that loads. `tried` lists the attempts (one log line each);
   * `loadedPath` is the path that loaded, "" if none did; `loadErr` is the
   * error of the last failed attempt, None if nothing failed.
   */
  method SearchDotEnv(paths: seq<string>, load: string -> Option<LoadError>)
    returns (loadedPath: string, loadErr: Option<LoadError>, tried: seq<string>)
    ensures |tried| <= |paths| && tried == paths[..|tried|]
    ensures forall j :: 0 <= j < |tried| - 1 ==> load(tried[j]).Some?
    ensures |tried| > 0 && load(tried[|tried| - 1]).None? ==>
              loadedPath == tried[|tried| - 1]
              && loadErr == (if |tried| == 1 then None else load(tried[|tried| - 2]))
    ensures !(|tried| > 0 && load(tried[|tried| - 1]).None?) ==>
              tried == paths && loadedPath == ""
              && loadErr == (if paths == [] then None else load(paths[|paths| - 1]))
  {
    loadedPath, loadErr, tried := "", None, [];
    var i := 0;
    while i < |paths|
      invariant 0 <= i <= |paths|
      invariant tried == paths[..i]
      invariant forall j :: 0 <= j < i ==> load(paths[j]).Some?
      invariant loadedPath == ""
      invariant loadErr == (if i == 0 then None else load(paths[i - 1]))
    {
      var path := paths[i];
      tried := tried + [path];
      var err := load(path);
      if err.None? {
        loadedPath := path;
        assert tried == paths[..i + 1];
        return;
      }
      loadErr := err;
      i := i + 1;
    }
    assert paths[..|paths|] == paths;
  }

  /**
   * `Load`: search for a `.env` file, then build the configuration from the
   * environment. It returns a configuration and no error whether or not a
   * file loaded.
   */
  method Load(env: Environment, load: string -> Option<LoadError>) returns (c: Config, err: Option<string>)
    ensures err == None
    ensures c == BuildConfig(env)
  {
    var loadedPath, loadErr, tried := SearchDotEnv(DotEnvPaths(env), load);
    c := BuildConfig(env);
    err := None;
  }
}

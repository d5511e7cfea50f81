/**
 * `startDB(app, db_type)`: the mode switch that connects MySQL, MongoDB or
 * both, then starts the HTTP listener, warns and idles on an unknown mode,
 * and exits with status 1 on any error; and the MongoDB URI it builds from
 * the environment. The drivers themselves are abstract: each connection
 * attempt succeeds or fails as a parameter says.
 */
module Db {
  import opened Wrappers
  import opened JsString

  /** `process.env`: variables are strings; a missing one is undefined. */
  type Env = map<string, string>

  /** The variable is set to a non-empty string. */
  predicate Truthy(env: Env, k: string) {
    k in env && env[k] != []
  }

  /** `env[k] || fallback`. */
  function Or(env: Env, k: string, fallback: string): (v: string)
    ensures Truthy(env, k) ==> v == env[k]
    ensures !Truthy(env, k) ==> v == fallback
  {
    if Truthy(env, k) then env[k] else fallback
  }

  const MissingMongoConfig := "Please set MDB_URI or MDB_HOST and MDB_NAME in environment variables"

  /** The URI built from its parts, credentials percent-encoded. */
  function AssembleUri(user: string, pass: string, host: string, port: string, name: string): string {
    "mongodb://" + EncodeUriComponent(user) + ":" + EncodeUriComponent(pass) + "@" + Location(host, port, name)
  }

  function Location(host: string, port: string, name: string): string {
    host + ":" + port + "/" + name + "?authSource=admin"
  }

  /**
   * The URI `connectMongo` hands to mongoose, or the error it throws first.
   * MDB_URI wins outright; without it, host and name must both be set, and
   * a driver reads back exactly the user and password the environment gave
   * (empty when unset), whatever characters they hold.
   */
  function MongoUri(env: Env): (r: Result<string, string>)
    ensures Truthy(env, "MDB_URI") ==> r == Ok(env["MDB_URI"])
    ensures !Truthy(env, "MDB_URI") ==> (r.Err? <==> !Truthy(env, "MDB_HOST") || !Truthy(env, "MDB_NAME"))
    ensures r.Err? ==> r.error == MissingMongoConfig
    ensures !Truthy(env, "MDB_URI") && r.Ok? ==>
      Credentials(r.value) == Some((Or(env, "MDB_USER", ""), Or(env, "MDB_PASS", "")))
    ensures !Truthy(env, "MDB_URI") && r.Ok? ==>
      r.value == AssembleUri(Or(env, "MDB_USER", ""), Or(env, "MDB_PASS", ""), env["MDB_HOST"],
                             Or(env, "MDB_PORT", "27017"), env["MDB_NAME"])
  {
    if Truthy(env, "MDB_URI") then Ok(env["MDB_URI"])
    else if !Truthy(env, "MDB_HOST") || !Truthy(env, "MDB_NAME") then Err(MissingMongoConfig)
    else
      CredentialsRoundTrip(Or(env, "MDB_USER", ""), Or(env, "MDB_PASS", ""), env["MDB_HOST"],
                           Or(env, "MDB_PORT", "27017"), env["MDB_NAME"]);
      Ok(AssembleUri(Or(env, "MDB_USER", ""), Or(env, "MDB_PASS", ""), env["MDB_HOST"],
                     Or(env, "MDB_PORT", "27017"), env["MDB_NAME"]))
  }

  /** The first position of `c` in `s`. */
  function FirstIndex(s: string, c: char): (r: Option<nat>)
    ensures r.Some? ==> r.value < |s| && s[r.value] == c && c !in s[..r.value]
    ensures r.None? ==> c !in s
  {
    if s == [] then None
    else if s[0] == c then Some(0)
    else
      match FirstIndex(s[1..], c)
      case None => None
      case Some(i) =>
        assert s[..i + 1] == [s[0]] + s[1..][..i];
        Some(i + 1)
  }

  lemma {:induction false} FirstIndexAfter(a: string, c: char, b: string)
    requires c !in a
    ensures FirstIndex(a + [c] + b, c) == Some(|a|)
  {
    if a != [] {
      assert (a + [c] + b)[1..] == a[1..] + [c] + b;
      FirstIndexAfter(a[1..], c, b);
    }
  }

  /**
   * The credentials a MongoDB URI carries, as a driver reads them: after the
   * scheme, up to the first ':' is the user, then up to the first '@' the
   * password, both percent-decoded. A URI parser splits the authority at the
   * last '@' instead; the two readings differ only when `MDB_HOST` itself
   * holds an '@'.
   */
  function Credentials(uri: string): Option<(string, string)> {
    var scheme := "mongodb://";
    if |uri| < |scheme| || uri[..|scheme|] != scheme then None else UserInfo(uri[|scheme|..])
  }

  function UserInfo(rest: string): Option<(string, string)> {
    match FirstIndex(rest, ':')
    case None => None
    case Some(i) =>
      var after := rest[i + 1..];
      match FirstIndex(after, '@')
      case None => None
      case Some(j) =>
        match (DecodeUriComponent(rest[..i]), DecodeUriComponent(after[..j]))
        case (Some(u), Some(p)) => Some((u, p))
        case _ => None
  }

  lemma UserInfoOf(eu: string, ep: string, tail: string)
    requires ':' !in eu && '@' !in ep
    ensures UserInfo(eu + [':'] + (ep + ['@'] + tail)) ==
      match (DecodeUriComponent(eu), DecodeUriComponent(ep))
      case (Some(u), Some(p)) => Some((u, p))
      case _ => None
  {
    var rest := eu + [':'] + (ep + ['@'] + tail);
    FirstIndexAfter(eu, ':', ep + ['@'] + tail);
    assert rest[..|eu|] == eu;
    assert rest[|eu| + 1..] == ep + ['@'] + tail;
    FirstIndexAfter(ep, '@', tail);
    assert (ep + ['@'] + tail)[..|ep|] == ep;
  }

  lemma SplitAfterScheme(scheme: string, eu: string, ep: string, tail: string)
    ensures scheme + eu + ":" + ep + "@" + tail == scheme + (eu + [':'] + (ep + ['@'] + tail))
  {
    assert scheme + eu + ":" + ep + "@" + tail == scheme + (eu + (":" + (ep + ("@" + tail))));
  }

  /** Whatever the user name and password hold, a driver reads back exactly them. */
  lemma CredentialsRoundTrip(user: string, pass: string, host: string, port: string, name: string)
    ensures Credentials(AssembleUri(user, pass, host, port, name)) == Some((user, pass))
  {
    var eu, ep := EncodeUriComponent(user), EncodeUriComponent(pass);
    var tail := Location(host, port, name);
    var rest := eu + [':'] + (ep + ['@'] + tail);
    var uri := AssembleUri(user, pass, host, port, name);
    assert uri == "mongodb://" + rest by {
      SplitAfterScheme("mongodb://", eu, ep, tail);
    }
    assert uri[..10] == "mongodb://" && uri[10..] == rest;
    EncodedHasNoDelimiter(user, ':');
    EncodedHasNoDelimiter(pass, '@');
    UserInfoOf(eu, ep, tail);
    DecodeEncodeRoundTrip(user);
    DecodeEncodeRoundTrip(pass);
  }

  // ----- the boot sequence -----

  /** What startDB does, in order. Connection attempts record whether they succeeded. */
  datatype Event =
    | MySqlAuthenticate(up: bool)
    | MongoConnect(uri: string, up: bool)
    | Listen(port: string)
    | Warn
    | Exit(code: int)

  /** `process.env.REST_PORT || 3000`. */
  function Port(env: Env): string {
    Or(env, "REST_PORT", "3000")
  }

  /** connectMongo: nothing is attempted when the URI cannot be built. */
  function MongoSteps(env: Env, up: bool): seq<Event> {
    if MongoUri(env).Err? then [] else [MongoConnect(MongoUri(env).value, up)]
  }

  predicate MongoOk(env: Env, up: bool) {
    MongoUri(env).Ok? && up
  }

  /** startServer, or the catch block's exit(1). */
  function Finish(ok: bool, env: Env): seq<Event> {
    if ok then [Listen(Port(env))] else [Exit(1)]
  }

  /** The cases of the switch on `db_type`. */
  datatype Mode = MySql | Mongo | Multi | Unknown

  function ModeOf(dbType: Option<string>): Mode {
    if dbType == Some("mysql") then MySql
    else if dbType == Some("mongo") then Mongo
    else if dbType == Some("multi") then Multi
    else Unknown
  }

  /**
   * The switch on `db_type`, given whether MySQL authenticates and whether
   * mongoose connects. Exactly one of three outcomes: the listener starts as
   * the last step, the process exits with 1 as the last step, or (unknown
   * mode) it only warns. The listener never starts after a failure, and
   * nothing follows it.
   */
  function Boot(mode: Mode, env: Env, mysqlUp: bool, mongoUp: bool): (t: seq<Event>)
    ensures |t| >= 1
    ensures t[|t| - 1] == Listen(Port(env)) <==> Starts(mode, env, mysqlUp, mongoUp)
    ensures t[|t| - 1] == Exit(1) <==> mode != Unknown && !Starts(mode, env, mysqlUp, mongoUp)
    ensures t == [Warn] <==> mode == Unknown
    ensures forall i :: 0 <= i < |t| - 1 ==> !t[i].Listen? && !t[i].Exit? && !t[i].Warn?
  {
    match mode
    case MySql => [MySqlAuthenticate(mysqlUp)] + Finish(mysqlUp, env)
    case Mongo => MongoSteps(env, mongoUp) + Finish(MongoOk(env, mongoUp), env)
    case Multi =>
      [MySqlAuthenticate(mysqlUp)]
      + (if mysqlUp then MongoSteps(env, mongoUp) + Finish(MongoOk(env, mongoUp), env) else [Exit(1)])
    case Unknown => [Warn]
  }

  predicate UsesMySql(mode: Mode) {
    mode == MySql || mode == Multi
  }

  predicate UsesMongo(mode: Mode) {
    mode == Mongo || mode == Multi
  }

  /** The listener starts: a known mode, and every database it needs came up. */
  predicate Starts(mode: Mode, env: Env, mysqlUp: bool, mongoUp: bool) {
    mode != Unknown && (UsesMySql(mode) ==> mysqlUp) && (UsesMongo(mode) ==> MongoOk(env, mongoUp))
  }

  /** Which databases each mode touches, and in what order. */
  lemma BootAttempts(mode: Mode, env: Env, mysqlUp: bool, mongoUp: bool)
    ensures var t := Boot(mode, env, mysqlUp, mongoUp);
      && (mode == MySql ==> forall e :: e in t ==> !e.MongoConnect?)
      && (mode == Mongo ==> forall e :: e in t ==> !e.MySqlAuthenticate?)
      && (mode == Multi ==> t[0] == MySqlAuthenticate(mysqlUp))
      && (mode == Multi ==> ((exists e :: e in t && e.MongoConnect?) <==> mysqlUp && MongoUri(env).Ok?))
      && (mode == Unknown ==> forall e :: e in t ==> e == Warn)
  {
    var t := Boot(mode, env, mysqlUp, mongoUp);
    if mode == Multi && mysqlUp && MongoUri(env).Ok? {
      assert t[1] == MongoConnect(MongoUri(env).value, mongoUp);
    }
  }

  /** A URI that cannot be built stops the boot before any MongoDB connection is attempted. */
  lemma MissingConfigExits(env: Env, mongoUp: bool)
    requires MongoUri(env).Err?
    ensures Boot(Mongo, env, true, mongoUp) == [Exit(1)]
    ensures Boot(Multi, env, true, mongoUp) == [MySqlAuthenticate(true), Exit(1)]
  {
  }

  // ----- the module as startDB changes it -----

  /** `new Sequelize(DB_NAME, DB_USER, DB_PASSWORD, { host: DB_HOST, port: DB_PORT, dialect: "mysql" })`. */
  datatype SequelizeConfig = SequelizeConfig(
    database: Option<string>, username: Option<string>, password: Option<string>,
    host: Option<string>, port: Option<string>)

  function Lookup(env: Env, k: string): Option<string> {
    if k in env then Some(env[k]) else None
  }

  function SequelizeFrom(env: Env): SequelizeConfig {
    SequelizeConfig(Lookup(env, "DB_NAME"), Lookup(env, "DB_USER"), Lookup(env, "DB_PASSWORD"),
                    Lookup(env, "DB_HOST"), Lookup(env, "DB_PORT"))
  }

  /**
   * config/db.js as a module: its `dataAPI` and `mongoConnection` variables,
   * the `dataAPI` it exports, the port the app listens on, the exit code, and
   * what happened so far.
   */
  class DbModule {
    var dataApi: Option<SequelizeConfig>
    var exportedDataApi: Option<SequelizeConfig>
    var mongoConnection: Option<string>
    var listening: Option<string>
    var exitCode: Option<int>
    var trace: seq<Event>

    constructor ()
      ensures dataApi == None && exportedDataApi == None && mongoConnection == None
      ensures listening == None && exitCode == None && trace == []
    {
      dataApi := None;
      exportedDataApi := None;
      mongoConnection := None;
      listening := None;
      exitCode := None;
      trace := [];
    }

    /** connectMySQL: `dataAPI` is assigned before authenticating; it is exported only after. */
    method ConnectMySql(env: Env, up: bool) returns (ok: bool)
      modifies this
      ensures ok == up
      ensures dataApi == Some(SequelizeFrom(env))
      ensures exportedDataApi == if up then Some(SequelizeFrom(env)) else old(exportedDataApi)
      ensures trace == old(trace) + [MySqlAuthenticate(up)]
      ensures mongoConnection == old(mongoConnection) && listening == old(listening) && exitCode == old(exitCode)
    {
      dataApi := Some(SequelizeFrom(env));
      trace := trace + [MySqlAuthenticate(up)];
      if up {
        exportedDataApi := dataApi;
      }
      ok := up;
    }

    /** connectMongo: build the URI (or throw), connect, keep the connection. */
    method ConnectMongo(env: Env, up: bool) returns (ok: bool)
      modifies this
      ensures ok == MongoOk(env, up)
      ensures mongoConnection == if MongoOk(env, up) then Some(MongoUri(env).value) else old(mongoConnection)
      ensures trace == old(trace) + MongoSteps(env, up)
      ensures dataApi == old(dataApi) && exportedDataApi == old(exportedDataApi)
      ensures listening == old(listening) && exitCode == old(exitCode)
    {
      var mongoUri := MongoUri(env);
      if mongoUri.Err? {
        return false;
      }
      trace := trace + [MongoConnect(mongoUri.value, up)];
      if up {
        mongoConnection := Some(mongoUri.value);
      }
      ok := up;
    }

    method StartServer(env: Env)
      modifies this
      ensures listening == Some(Port(env)) && trace == old(trace) + [Listen(Port(env))]
      ensures dataApi == old(dataApi) && exportedDataApi == old(exportedDataApi)
      ensures mongoConnection == old(mongoConnection) && exitCode == old(exitCode)
    {
      listening := Some(Port(env));
      trace := trace + [Listen(Port(env))];
    }

    method ExitOnError()
      modifies this
      ensures exitCode == Some(1) && trace == old(trace) + [Exit(1)]
      ensures dataApi == old(dataApi) && exportedDataApi == old(exportedDataApi)
      ensures mongoConnection == old(mongoConnection) && listening == old(listening)
    {
      exitCode := Some(1);
      trace := trace + [Exit(1)];
    }

    /** `startDB(app, db_type)`: the switch, with the catch block's exit. */
    method StartDb(dbType: Option<string>, env: Env, mysqlUp: bool, mongoUp: bool)
      modifies this
      ensures var mode := ModeOf(dbType);
        && trace == old(trace) + Boot(mode, env, mysqlUp, mongoUp)
        && listening == (if Starts(mode, env, mysqlUp, mongoUp) then Some(Port(env)) else old(listening))
        && exitCode == (if mode != Unknown && !Starts(mode, env, mysqlUp, mongoUp) then Some(1) else old(exitCode))
        && dataApi == (if UsesMySql(mode) then Some(SequelizeFrom(env)) else old(dataApi))
        && exportedDataApi == (if UsesMySql(mode) && mysqlUp then Some(SequelizeFrom(env)) else old(exportedDataApi))
        && mongoConnection == (if UsesMongo(mode) && (mode == Multi ==> mysqlUp) && MongoOk(env, mongoUp)
                               then Some(MongoUri(env).value) else old(mongoConnection))
    {
      var mode := ModeOf(dbType);
      match mode
      case MySql => StartMySqlOnly(env, mysqlUp);
      case Mongo => StartMongoOnly(env, mongoUp);
      case Multi => StartBoth(env, mysqlUp, mongoUp);
      case Unknown => trace := trace + [Warn];
    }

    /** `case "mysql"`. */
    method StartMySqlOnly(env: Env, up: bool)
      modifies this
      ensures trace == old(trace) + Boot(MySql, env, up, false)
      ensures listening == (if up then Some(Port(env)) else old(listening))
      ensures exitCode == (if up then old(exitCode) else Some(1))
      ensures dataApi == Some(SequelizeFrom(env))
      ensures exportedDataApi == (if up then Some(SequelizeFrom(env)) else old(exportedDataApi))
      ensures mongoConnection == old(mongoConnection)
    {
      ghost var t0 := trace;
      var ok := ConnectMySql(env, up);
      if !ok {
        ExitOnError();
        assert trace == t0 + ([MySqlAuthenticate(up)] + [Exit(1)]);
        return;
      }
      StartServer(env);
      assert trace == t0 + ([MySqlAuthenticate(up)] + [Listen(Port(env))]);
    }

    /** `case "mongo"`. */
    method StartMongoOnly(env: Env, up: bool)
      modifies this
      ensures trace == old(trace) + Boot(Mongo, env, false, up)
      ensures listening == (if MongoOk(env, up) then Some(Port(env)) else old(listening))
      ensures exitCode == (if MongoOk(env, up) then old(exitCode) else Some(1))
      ensures mongoConnection == (if MongoOk(env, up) then Some(MongoUri(env).value) else old(mongoConnection))
      ensures dataApi == old(dataApi) && exportedDataApi == old(exportedDataApi)
    {
      ghost var t0 := trace;
      var ok := ConnectMongo(env, up);
      if !ok {
        ExitOnError();
        assert trace == t0 + (MongoSteps(env, up) + [Exit(1)]);
        return;
      }
      StartServer(env);
      assert trace == t0 + (MongoSteps(env, up) + [Listen(Port(env))]);
    }

    /** `case "multi"`: MySQL first, MongoDB only once MySQL is up. */
    method StartBoth(env: Env, mysqlUp: bool, mongoUp: bool)
      modifies this
      ensures trace == old(trace) + Boot(Multi, env, mysqlUp, mongoUp)
      ensures listening == (if mysqlUp && MongoOk(env, mongoUp) then Some(Port(env)) else old(listening))
      ensures exitCode == (if mysqlUp && MongoOk(env, mongoUp) then old(exitCode) else Some(1))
      ensures dataApi == Some(SequelizeFrom(env))
      ensures exportedDataApi == (if mysqlUp then Some(SequelizeFrom(env)) else old(exportedDataApi))
      ensures mongoConnection == (if mysqlUp && MongoOk(env, mongoUp) then Some(MongoUri(env).value) else old(mongoConnection))
    {
      ghost var t0 := trace;
      var ok := ConnectMySql(env, mysqlUp);
      if !ok {
        ExitOnError();
        assert trace == t0 + ([MySqlAuthenticate(mysqlUp)] + [Exit(1)]);
        return;
      }
      ok := ConnectMongo(env, mongoUp);
      if !ok {
        ExitOnError();
        assert trace == t0 + ([MySqlAuthenticate(mysqlUp)] + (MongoSteps(env, mongoUp) + [Exit(1)]));
        return;
      }
      StartServer(env);
      assert trace == t0 + ([MySqlAuthenticate(mysqlUp)] + (MongoSteps(env, mongoUp) + [Listen(Port(env))]));
    }
  }
}

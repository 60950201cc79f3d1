/**
 * The source command builder of the console: three stateless functions that
 * turn a driver tag and a request payload into a `{ type, args }` command
 * descriptor for the metadata API (add, drop and reload a data source).
 *
 * A read replica's connection information is a JSON object whose shape is
 * declared elsewhere, and a BigQuery service-account credential is whatever
 * `JSON.parse` returns; both are plain `Json` values, passed through untouched. The JSON parser itself is
 * the parameter `parseJson`: `Some(v)` when the text is well-formed JSON
 * denoting `v`, `None` when parsing would throw.
 */
module SourcesUtils {
  import opened Wrappers
  import opened JsStrings

  /** A JSON value (section 3 of RFC 8259); numbers keep their text, as no arithmetic is done on them. */
  datatype Json =
    | JsonNull
    | JsonBool(b: bool)
    | JsonNumber(literal: string)
    | JsonString(s: string)
    | JsonArray(items: seq<Json>)
    | JsonObject(members: seq<(string, Json)>)

  /**
   * Every driver tag except the four the model names. The builder itself
   * compares only against `mssql`, `bigquery` and `mysql`, so such a tag takes
   * the default path of both functions, as `postgres` does (and as `mysql`
   * does in `addSource`).
   */
  type OtherTag = tag: string | tag != "postgres" && tag != "mssql" && tag != "mysql" && tag != "bigquery"
    witness "citus"

  /** The database engine family a source connects to. */
  datatype Driver =
    | Postgres
    | Mssql
    | Mysql
    | BigQuery
      /** Any further tag: both functions treat it exactly as they treat `postgres`. */
    | Other(tag: OtherTag)

  /** The tag the console uses for each driver. */
  function DriverTag(driver: Driver): (tag: string)
  {
    match driver
    case Postgres => "postgres"
    case Mssql => "mssql"
    case Mysql => "mysql"
    case BigQuery => "bigquery"
    case Other(tag) => tag
  }

  /** A connection URL given literally, or the name of an environment variable holding it. */
  datatype DbUrl = Literal(text: string) | FromEnv(fromEnv: string)

  /** Connection-pool tuning, passed through without interpretation. */
  datatype PoolSettings = PoolSettings(
    maxConnections: Option<int>,
    idleTimeout: Option<int>,
    retries: Option<int>)

  /** The BigQuery-specific part of the form: project and comma-separated datasets. */
  datatype BigQueryForm = BigQueryForm(projectId: string, datasets: string)

  /** What the "add data source" form submits. */
  datatype AddSourcePayload = AddSourcePayload(
    name: string,
    dbUrl: DbUrl,
    connectionPoolSettings: Option<PoolSettings>,
    replaceConfiguration: Option<bool>,
    bigQuery: BigQueryForm)

  /** `configuration.connection_info` of an MS SQL source. */
  datatype MssqlConnectionInfo = MssqlConnectionInfo(
    connectionString: DbUrl,
    poolSettings: Option<PoolSettings>)

  /** `configuration.connection_info` of a Postgres source. */
  datatype PgConnectionInfo = PgConnectionInfo(
    databaseUrl: DbUrl,
    poolSettings: Option<PoolSettings>)

  /** A BigQuery credential: parsed JSON, or the environment indirection as given. */
  datatype ServiceAccount = Credentials(json: Json) | ServiceAccountFromEnv(fromEnv: string)

  /** `configuration` of an MS SQL source. */
  datatype MssqlConfiguration = MssqlConfiguration(connectionInfo: MssqlConnectionInfo)

  /** `configuration` of a BigQuery source. */
  datatype BigQueryConfiguration = BigQueryConfiguration(
    serviceAccount: ServiceAccount,
    projectId: string,
    datasets: seq<string>)

  /** `configuration` of a Postgres source; `readReplicas == None` is an explicit `null`. */
  datatype PgConfiguration = PgConfiguration(
    connectionInfo: PgConnectionInfo,
    readReplicas: Option<seq<Json>>)

  /** The `args` mapping of a command descriptor, one shape per operation. */
  datatype Args =
    | MssqlAddArgs(name: string, mssqlConfiguration: MssqlConfiguration, replaceConfiguration: bool)
    | BigQueryAddArgs(name: string, bigQueryConfiguration: BigQueryConfiguration, replaceConfiguration: bool)
    | PgAddArgs(name: string, pgConfiguration: PgConfiguration, replaceConfiguration: bool)
    | DropArgs(name: string)
    | ReloadArgs(reloadSources: seq<string>)

  /** A command descriptor `{ type, args }` for the metadata API. */
  datatype Command = Command(kind: string, args: Args)

  /** The one way building a command can fail: a literal BigQuery credential that is not JSON. */
  datatype AddSourceError = MalformedServiceAccount(text: string)

  /** The effective replace flag: the payload's when given, `false` otherwise. */
  function ReplaceFlag(payload: AddSourcePayload): (flag: bool)
    ensures payload.replaceConfiguration == Some(true) <==> flag
  {
    payload.replaceConfiguration.GetOr(false)
  }

  /** The replica list as sent: absent and empty lists both become `null`. */
  function ReadReplicas(replicas: Option<seq<Json>>): (sent: Option<seq<Json>>)
    ensures sent == None <==> (replicas == None || replicas.value == [])
    ensures sent != None ==> sent == replicas
  {
    match replicas
    case Some(list) => if |list| > 0 then replicas else None
    case None => None
  }

  /**
   * The dataset list as sent: the form's text split on commas, each piece
   * trimmed. One entry per comma plus one (so the empty text gives one empty
   * entry), entry `i` the trimmed `i`-th comma-free segment, none holding a comma.
   */
  function Datasets(text: string): (names: seq<string>)
    ensures |names| == CountChar(text, ',') + 1
    ensures forall i :: 0 <= i < |names| ==> IsTrimOf(Split(text, ',')[i], names[i])
    ensures forall i :: 0 <= i < |names| ==> ',' !in names[i]
  {
    var segments := Split(text, ',');
    var names := seq(|segments|, i requires 0 <= i < |segments| => Trim(segments[i]));
    assert forall i :: 0 <= i < |names| ==> ',' !in names[i] by {
      forall i | 0 <= i < |names| ensures ',' !in names[i] {
        TrimKeepsOut(segments[i], ',');
      }
    }
    names
  }

  /** The credential as sent: an environment indirection as is, literal text parsed as JSON. */
  function ServiceAccountOf(dbUrl: DbUrl, parseJson: string -> Option<Json>): (r: Result<ServiceAccount, AddSourceError>)
    ensures dbUrl.FromEnv? ==> r == Success(ServiceAccountFromEnv(dbUrl.fromEnv))
    ensures dbUrl.Literal? && parseJson(dbUrl.text).Some? ==> r == Success(Credentials(parseJson(dbUrl.text).value))
    ensures dbUrl.Literal? && parseJson(dbUrl.text).None? ==> r == Failure(MalformedServiceAccount(dbUrl.text))
  {
    match dbUrl
    case FromEnv(variable) => Success(ServiceAccountFromEnv(variable))
    case Literal(text) =>
      match parseJson(text)
      case Some(json) => Success(Credentials(json))
      case None => Failure(MalformedServiceAccount(text))
  }

  /**
   * `addSource(driver, payload, replicas)`: the command that registers a data
   * source. `mssql` and `bigquery` have their own commands; every other tag,
   * `mysql` included, gets the Postgres one. Replicas are only sent for it.
   */
  function AddSource(
    driver: Driver,
    payload: AddSourcePayload,
    replicas: Option<seq<Json>>,
    parseJson: string -> Option<Json>): (r: Result<Command, AddSourceError>)
    // it fails only on a literal BigQuery credential that is not JSON
    ensures r.Failure? <==> driver == BigQuery && payload.dbUrl.Literal? && parseJson(payload.dbUrl.text).None?
    ensures r.Failure? ==> r.error == MalformedServiceAccount(payload.dbUrl.text)
    // every command is an add command carrying the name and the flag, defaulting to false
    ensures r.Success? ==> r.value.args.MssqlAddArgs? || r.value.args.BigQueryAddArgs? || r.value.args.PgAddArgs?
    ensures r.Success? ==> r.value.args.name == payload.name
    ensures r.Success? ==> (r.value.args.replaceConfiguration <==> payload.replaceConfiguration == Some(true))
    // mssql: connection string and pool settings exactly as submitted
    ensures driver == Mssql ==>
      r.Success? && r.value.kind == "mssql_add_source" && r.value.args.MssqlAddArgs? &&
      r.value.args.mssqlConfiguration.connectionInfo.connectionString == payload.dbUrl &&
      r.value.args.mssqlConfiguration.connectionInfo.poolSettings == payload.connectionPoolSettings
    // bigquery: project as submitted, datasets split and trimmed, credential parsed or passed on
    ensures driver == BigQuery && r.Success? ==>
      r.value.kind == "bigquery_add_source" && r.value.args.BigQueryAddArgs? &&
      r.value.args.bigQueryConfiguration.projectId == payload.bigQuery.projectId &&
      r.value.args.bigQueryConfiguration.datasets == Datasets(payload.bigQuery.datasets) &&
      Success(r.value.args.bigQueryConfiguration.serviceAccount) == ServiceAccountOf(payload.dbUrl, parseJson)
    // every other driver: the Postgres command, replicas only when there are some
    ensures driver != Mssql && driver != BigQuery ==>
      r.Success? && r.value.kind == "pg_add_source" && r.value.args.PgAddArgs? &&
      r.value.args.pgConfiguration.connectionInfo.databaseUrl == payload.dbUrl &&
      r.value.args.pgConfiguration.connectionInfo.poolSettings == payload.connectionPoolSettings &&
      (r.value.args.pgConfiguration.readReplicas == None <==> replicas == None || replicas.value == []) &&
      (r.value.args.pgConfiguration.readReplicas != None ==> r.value.args.pgConfiguration.readReplicas == replicas)
  {
    var replace := ReplaceFlag(payload);
    if driver == Mssql then
      Success(Command("mssql_add_source",
        MssqlAddArgs(payload.name,
          MssqlConfiguration(MssqlConnectionInfo(payload.dbUrl, payload.connectionPoolSettings)),
          replace)))
    else if driver == BigQuery then
      match ServiceAccountOf(payload.dbUrl, parseJson)
      case Failure(e) => Failure(e)
      case Success(account) =>
        Success(Command("bigquery_add_source",
          BigQueryAddArgs(payload.name,
            BigQueryConfiguration(account, payload.bigQuery.projectId, Datasets(payload.bigQuery.datasets)),
            replace)))
    else
      Success(Command("pg_add_source",
        PgAddArgs(payload.name,
          PgConfiguration(
            PgConnectionInfo(payload.dbUrl, payload.connectionPoolSettings),
            ReadReplicas(replicas)),
          replace)))
  }

  /** The operation-name prefix of `removeSource`: `mysql` has its own, unknown tags fall back to `pg_`. */
  function DropPrefix(driver: Driver): (prefix: string)
  {
    match driver
    case Mssql => "mssql_"
    case Mysql => "mysql_"
    case BigQuery => "bigquery_"
    case _ => "pg_"
  }

  /** `removeSource(driver, name)`: the command that drops a source, carrying only its name. */
  function RemoveSource(driver: Driver, name: string): (c: Command)
    ensures c.args == DropArgs(name)
    ensures c.kind == DropPrefix(driver) + "drop_source"
    ensures driver == Mssql ==> c.kind == "mssql_drop_source"
    ensures driver == Mysql ==> c.kind == "mysql_drop_source"
    ensures driver == BigQuery ==> c.kind == "bigquery_drop_source"
    ensures driver.Postgres? || driver.Other? ==> c.kind == "pg_drop_source"
    // the same dispatch, stated over the tag the console switches on
    ensures DriverTag(driver) == "mssql" ==> c.kind == "mssql_drop_source"
    ensures DriverTag(driver) == "mysql" ==> c.kind == "mysql_drop_source"
    ensures DriverTag(driver) == "bigquery" ==> c.kind == "bigquery_drop_source"
    ensures DriverTag(driver) !in {"mssql", "mysql", "bigquery"} ==> c.kind == "pg_drop_source"
  {
    Command(DropPrefix(driver) + "drop_source", DropArgs(name))
  }

  /** `reloadSource(name)`: reload the metadata of exactly that one source. */
  function ReloadSource(name: string): (c: Command)
    ensures c.kind == "reload_metadata"
    ensures c.args.ReloadArgs? && |c.args.reloadSources| == 1 && c.args.reloadSources[0] == name
  {
    Command("reload_metadata", ReloadArgs([name]))
  }
}

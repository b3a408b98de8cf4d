/** The `App` class of src/app.ts: its connection record, the schema it
    assembles once in its constructor, the database lifecycle that sets the
    connectivity flag, and the `chechConnection` diagnostics resolver. */
module AppServer {
  import opened Wrappers
  import Schema
  import Database

  /** The reply of the `chechConnection` resolver. */
  datatype Status = Status(status: bool, message: string)

  const ConnectedMessage: string := "DB CONNECTED"
  const NotConnectedMessage: string := "DB NOT CONNECTED"

  /** `new App(controllers)` with the `DB` environment value `env`. The
      constructor first calls `initialized()`, which runs the `DB` check of
      `connectToDatabase` in the same step: an empty target exits the
      process with status 1 there, so no App exists and no schema is built.
      Otherwise the connect call is left pending, the schema lists are
      assembled and the App is returned with the flag still false. */
  method NewApp(controllers: seq<Schema.Controller>, env: Option<string>) returns (app: App?, exitCode: Option<int>)
    ensures app == null <==> Database.ConfigTarget(env) == ""
    ensures app == null ==> exitCode == Some(Database.ExitFailure)
    ensures app != null ==>
      && fresh(app)
      && exitCode == None
      && app.dbTarget == Database.ConfigTarget(env)
      && !app.dbConnection && app.graphQLUrl == None
      && app.typeDefs == Schema.TypeDefsOf(controllers) + [Schema.DiagnosticsTypeDefs]
      && app.resolvers == Schema.ResolversOf(controllers) + [Schema.DiagnosticsResolvers]
  {
    var target := Database.ConfigTarget(env);
    if target == "" {
      app, exitCode := null, Some(Database.ExitFailure);
    } else {
      app := new App(controllers, target);
      exitCode := None;
    }
  }

  class App {
    /** `connection.db_connection`: false until the database connects. */
    var dbConnection: bool
    /** `connection.graphQL.url`: set once the server listens. */
    var graphQLUrl: Option<string>
    /** The `DB` value whose connect call the App is waiting on. */
    const dbTarget: string
    /** The type definitions and resolver maps handed to the schema builder;
        fixed for the lifetime of the App. */
    const typeDefs: seq<Schema.Document>
    const resolvers: seq<Schema.ResolverMap>

    /** The rest of the constructor once the `DB` check has passed (the
        check itself is in `NewApp`): the flag is false, there is no server
        address yet, and the schema lists are assembled from the
        controllers. */
    constructor (controllers: seq<Schema.Controller>, target: string)
      requires target != ""
      ensures dbTarget == target
      ensures !dbConnection && graphQLUrl == None
      ensures typeDefs == Schema.TypeDefsOf(controllers) + [Schema.DiagnosticsTypeDefs]
      ensures resolvers == Schema.ResolversOf(controllers) + [Schema.DiagnosticsResolvers]
    {
      var t, r := Schema.CreateSchema(controllers);
      dbTarget := target;
      typeDefs, resolvers := t, r;
      dbConnection, graphQLUrl := false, None;
    }

    /** The `chechConnection` resolver: reads the flag and nothing else. The
        message names the flag: `DB CONNECTED` exactly when it is set. */
    function ChechConnection(): (s: Status)
      reads this
      ensures s.status == dbConnection
      ensures s.message == ConnectedMessage <==> dbConnection
      ensures s.message == NotConnectedMessage <==> !dbConnection
    {
      Status(dbConnection, if dbConnection then ConnectedMessage else NotConnectedMessage)
    }

    /** Completion of the connect call that `initialized()` left pending,
        with outcome `handshake`: the flag becomes true after a successful
        connect; on a failed one the process exits with the returned code
        and the flag is left as it was. The flag is never assigned false. */
    method Initialized(handshake: bool) returns (exitCode: Option<int>)
      requires dbTarget != ""
      modifies this`dbConnection
      ensures handshake <==> Database.ConnectToDatabase(Some(dbTarget), handshake).Connected?
      ensures handshake ==> dbConnection && exitCode == None
      ensures !handshake ==>
        dbConnection == old(dbConnection) && exitCode == Some(Database.ExitFailure)
      ensures old(dbConnection) ==> dbConnection
    {
      var outcome := Database.ConnectToDatabase(Some(dbTarget), handshake);
      match outcome {
        case Connected(_) =>
          dbConnection := true;
          exitCode := None;
        case Fatal(code, _) =>
          exitCode := Some(code);
      }
    }

    /** `listen(port)`: the standalone server is started by the server
        library, which reports the address it bound; requests are then
        served with the context built by module RequestContext. */
    method Listen(boundUrl: string)
      modifies this`graphQLUrl
      ensures graphQLUrl == Some(boundUrl)
    {
      graphQLUrl := Some(boundUrl);
    }
  }
}

/** `App.connectToDatabase` (src/app.ts): the `DB` environment check and
    the connect call, whose outcome is an input here. Every failure ends the
    process with exit status 1, returned here as a value. */
module Database {
  import opened Wrappers

  /** Why the process exits. */
  datatype FatalReason = TargetNotSet | ConnectFailed

  /** Connected to `target`, or the process exits with `code`. */
  datatype ConnectResult = Connected(target: string) | Fatal(code: int, reason: FatalReason)

  const ExitFailure: int := 1

  /** `process.env.DB || ''`: an unset variable reads as empty. */
  function ConfigTarget(env: Option<string>): (target: string)
    ensures env.None? ==> target == ""
    ensures env.Some? ==> target == env.value
  {
    env.GetOr("")
  }

  /** The outcome of `connectToDatabase` for the `DB` environment value and
      the outcome `handshake` of the connect call. An empty target is
      rejected before connecting; a failed connect is fatal too. */
  function ConnectToDatabase(env: Option<string>, handshake: bool): (r: ConnectResult)
    ensures r.Connected? <==> ConfigTarget(env) != "" && handshake
    ensures r.Connected? ==> r.target == ConfigTarget(env)
    ensures r.Fatal? ==> r.code == ExitFailure
    ensures ConfigTarget(env) == "" ==> r == Fatal(ExitFailure, TargetNotSet)
  {
    var target := ConfigTarget(env);
    if target == "" then Fatal(ExitFailure, TargetNotSet)
    else if handshake then Connected(target)
    else Fatal(ExitFailure, ConnectFailed)
  }

  /** With no target the connect call is never made: the outcome does not
      depend on what the connect call would have done. */
  lemma EmptyTargetNeverConnects(env: Option<string>, h1: bool, h2: bool)
    requires ConfigTarget(env) == ""
    ensures ConnectToDatabase(env, h1) == ConnectToDatabase(env, h2) == Fatal(1, TargetNotSet)
  {
  }
}

/** `run_script(path, interactive)` (manager.py:32-50) as a decision over what the outside world
    answers: whether the path exists and what the process launch gives. The launch itself
    (`subprocess.Popen` / `subprocess.run`) is an input, not modelled. */
module ScriptRunner {
  import opened Common

  /** What launching the interpreter on the script gives: the launch raised, or a process ran; for a
      blocking run its exit status, for a detached one the status is never read. */
  datatype Spawn = SpawnRaised | Spawned(exitCode: int)

  /** The world as `run_script` sees it for one call. */
  datatype ScriptEnv = ScriptEnv(present: bool, spawn: Spawn)

  /** Which line `run_script` prints and what it returns: no path, a missing file, a launch that
      raised, a blocking run with its exit status, or a detached launch. */
  datatype RunReport =
    | NoPath
    | Missing(path: string)
    | LaunchFailed(path: string)
    | Exited(path: string, code: int)
    | Detached(path: string)
  {
    /** The boolean `run_script` returns. */
    predicate Succeeded() {
      Detached? || (Exited? && code == 0)
    }

    /** The interpreter was started on the script. */
    predicate Launched() {
      Exited? || Detached?
    }
  }

  /** A path is used when it is truthy: given and not empty. */
  predicate PathGiven(path: Option<string>) {
    path.Some? && path.value != ""
  }

  /** `run_script`: nothing is launched without a path or for a file that does not exist; an
      interactive launch succeeds as soon as the process starts; a blocking run succeeds exactly when
      its exit status is 0; an exception from the launch is a failure. */
  function RunScript(path: Option<string>, interactive: bool, env: ScriptEnv): (r: RunReport)
    ensures r.Succeeded() <==>
              PathGiven(path) && env.present && env.spawn.Spawned? && (interactive || env.spawn.exitCode == 0)
    ensures r.Launched() <==> PathGiven(path) && env.present && env.spawn.Spawned?
    ensures r == NoPath <==> !PathGiven(path)
    ensures r.Launched() ==> (r.Detached? <==> interactive)
    ensures r != NoPath ==> r.path == path.value
  {
    if !PathGiven(path) then NoPath
    else if !env.present then Missing(path.value)
    else match env.spawn
      case SpawnRaised => LaunchFailed(path.value)
      case Spawned(code) => if interactive then Detached(path.value) else Exited(path.value, code)
  }

  /** Without a path the world is never consulted. */
  lemma NoPathIgnoresWorld(path: Option<string>, interactive: bool, env: ScriptEnv, other: ScriptEnv)
    requires !PathGiven(path)
    ensures RunScript(path, interactive, env) == RunScript(path, interactive, other) == NoPath
  {
  }

  /** A detached launch never reads the exit status: two worlds that differ only there agree. */
  lemma InteractiveIgnoresExitCode(path: Option<string>, present: bool, code: int, otherCode: int)
    ensures RunScript(path, true, ScriptEnv(present, Spawned(code))) ==
            RunScript(path, true, ScriptEnv(present, Spawned(otherCode)))
  {
  }
}

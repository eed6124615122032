/** The translator → minify → HTML→PDF chain: the GUI's `run_translator`, `run_minify`, `run_html`
    and `run_all` (manager.py:218-243, 257-262) and the CLI chain (manager.py:362-377), as the
    trace of what they report. Every `log_msg` / console line is an `Event`; each call of
    `run_script` is an `Invoked` event carrying that call's report. */
module Pipeline {
  import opened Common
  import opened ScriptRunner

  datatype Stage = Translator | Minify | HtmlToPdf

  /** The script paths `find_latest_script` chose at start-up (`None` when it found nothing). */
  datatype Scripts = Scripts(translator: Option<string>, minify: Option<string>, html: Option<string>)
  {
    function Of(stage: Stage): Option<string> {
      match stage
      case Translator => translator
      case Minify => minify
      case HtmlToPdf => html
    }
  }

  /** The world each stage's `run_script` call meets during one run of the chain. */
  datatype PipelineEnv = PipelineEnv(translator: ScriptEnv, minify: ScriptEnv, html: ScriptEnv)
  {
    function Of(stage: Stage): ScriptEnv {
      match stage
      case Translator => translator
      case Minify => minify
      case HtmlToPdf => html
    }
  }

  /** The observable lines, message texts abstracted to their meaning. */
  datatype Event =
    // a call of run_script for a stage, and what it printed and returned
    | Invoked(stage: Stage, report: RunReport)
    // GUI stage methods and run_all
    | NotFound(stage: Stage)
    | Running(stage: Stage)
    | Finished(stage: Stage, ok: bool)
    | HtmlSkippedByConfig
    | RunAllStarted
    | RunAllFinished
    // GUI target selection, watch toggle and watch loop
    | Selected(count: nat)
    | NoTargetsSelected
    | TargetsNotFound(count: nat)
    | WatchStarted(count: nat)
    | WatchStopped
    | NoTargetsToWatch
    | TargetRemoved(target: string)
    | ChangeDetected(target: string)
    // CLI mode
    | MissingTarget(target: string)
    | Watching(targets: seq<string>)
    | RunningOnce
    | FileVanished(target: string)
    | FileChanged(target: string)
    | HtmlLaunching
    | HtmlOmittedByFlag
    | ChainFinished
    | UserExit

  /** Traces are built by appending, in either grouping. */
  lemma AppendAssoc(a: seq<Event>, b: seq<Event>, c: seq<Event>)
    ensures (a + b) + c == a + (b + c)
  {
  }

  /** The stages `run_script` was called for, in order. */
  function Invocations(trace: seq<Event>): seq<Stage> {
    if trace == [] then []
    else Invocations(trace[..|trace| - 1]) +
         (if trace[|trace| - 1].Invoked? then [trace[|trace| - 1].stage] else [])
  }

  lemma {:induction false} InvocationsAppend(a: seq<Event>, b: seq<Event>)
    ensures Invocations(a + b) == Invocations(a) + Invocations(b)
  {
    if b != [] {
      assert (a + b)[..|a + b| - 1] == a + b[..|b| - 1];
      InvocationsAppend(a, b[..|b| - 1]);
    } else {
      assert a + b == a;
    }
  }

  /** A trace without `run_script` calls has no invocations. */
  lemma {:induction false} InvocationsNone(trace: seq<Event>)
    requires forall e :: e in trace ==> !e.Invoked?
    ensures Invocations(trace) == []
  {
    if trace != [] {
      assert trace[|trace| - 1] in trace;
      assert forall e :: e in trace[..|trace| - 1] ==> e in trace;
      InvocationsNone(trace[..|trace| - 1]);
    }
  }

  /** One GUI stage button: `run_translator` / `run_minify` (manager.py:218-232) and `run_html`
      (manager.py:234-243). A missing script is reported first; for HTML→PDF the `no_html` setting
      is checked next; otherwise the script runs, blocking except for HTML→PDF, and its result is
      reported. */
  function StageLog(stage: Stage, scripts: Scripts, noHtml: bool, env: ScriptEnv): seq<Event> {
    var path := scripts.Of(stage);
    if !PathGiven(path) then [NotFound(stage)]
    else if stage == HtmlToPdf && noHtml then [HtmlSkippedByConfig]
    else
      var report := RunScript(path, stage == HtmlToPdf, env);
      [Running(stage), Invoked(stage, report), Finished(stage, report.Succeeded())]
  }

  /** Whether a GUI stage calls `run_script`: its script is known and, for HTML→PDF, `no_html` is off. */
  predicate Attempted(stage: Stage, scripts: Scripts, noHtml: bool) {
    PathGiven(scripts.Of(stage)) && !(stage == HtmlToPdf && noHtml)
  }

  function Only(b: bool, stage: Stage): seq<Stage> {
    if b then [stage] else []
  }

  /** `run_all` (manager.py:257-262): the three stage methods in turn between two markers. */
  function RunAllLog(scripts: Scripts, noHtml: bool, env: PipelineEnv): seq<Event> {
    [RunAllStarted] + StagesLog(scripts, noHtml, env) + [RunAllFinished]
  }

  /** The three stage methods in turn, as `run_all` calls them. */
  function StagesLog(scripts: Scripts, noHtml: bool, env: PipelineEnv): seq<Event> {
    StageLog(Translator, scripts, noHtml, env.translator)
    + StageLog(Minify, scripts, noHtml, env.minify)
    + StageLog(HtmlToPdf, scripts, noHtml, env.html)
  }

  /** A stage calls `run_script` exactly when `Attempted` says so, whatever the world. */
  lemma StageInvocations(stage: Stage, scripts: Scripts, noHtml: bool, env: ScriptEnv)
    ensures Invocations(StageLog(stage, scripts, noHtml, env)) == Only(Attempted(stage, scripts, noHtml), stage)
  {
    var log := StageLog(stage, scripts, noHtml, env);
    if Attempted(stage, scripts, noHtml) {
      assert log == [log[0]] + [log[1]] + [log[2]];
      InvocationsAppend([log[0]], [log[1]]);
      InvocationsAppend([log[0]] + [log[1]], [log[2]]);
    } else {
      assert Invocations(log) == Invocations([]) + Invocations([log[0]]);
    }
  }

  /** `run_all` has no short circuit: translator, minify and HTML→PDF are attempted in that order
      whatever the earlier ones returned; a stage is skipped only for a missing script, and
      HTML→PDF also for `no_html`. */
  lemma RunAllOrder(scripts: Scripts, noHtml: bool, env: PipelineEnv)
    ensures Invocations(RunAllLog(scripts, noHtml, env)) ==
              Only(PathGiven(scripts.translator), Translator)
              + Only(PathGiven(scripts.minify), Minify)
              + Only(PathGiven(scripts.html) && !noHtml, HtmlToPdf)
  {
    var t := StageLog(Translator, scripts, noHtml, env.translator);
    var m := StageLog(Minify, scripts, noHtml, env.minify);
    var h := StageLog(HtmlToPdf, scripts, noHtml, env.html);
    StageInvocations(Translator, scripts, noHtml, env.translator);
    StageInvocations(Minify, scripts, noHtml, env.minify);
    StageInvocations(HtmlToPdf, scripts, noHtml, env.html);
    InvocationsAppend(t, m);
    InvocationsAppend(t + m, h);
    InvocationsAppend([RunAllStarted], t + m + h);
    InvocationsAppend([RunAllStarted] + (t + m + h), [RunAllFinished]);
    assert Invocations([RunAllStarted]) == [];
    assert Invocations([RunAllFinished]) == [];
  }

  /** The HTML→PDF button without a script reports the missing script, whatever `no_html` says:
      that check comes first. */
  lemma HtmlMissingComesFirst(scripts: Scripts, noHtml: bool, env: ScriptEnv)
    requires !PathGiven(scripts.html)
    ensures StageLog(HtmlToPdf, scripts, noHtml, env) == [NotFound(HtmlToPdf)]
  {
  }

  /** A stage logs neither of `run_all`'s markers. */
  lemma StageHasNoMarkers(stage: Stage, scripts: Scripts, noHtml: bool, env: ScriptEnv)
    ensures RunAllStarted !in StageLog(stage, scripts, noHtml, env)
    ensures RunAllFinished !in StageLog(stage, scripts, noHtml, env)
  {
  }

  lemma StagesHaveNoMarkers(scripts: Scripts, noHtml: bool, env: PipelineEnv)
    ensures RunAllStarted !in StagesLog(scripts, noHtml, env) && RunAllFinished !in StagesLog(scripts, noHtml, env)
  {
    StageHasNoMarkers(Translator, scripts, noHtml, env.translator);
    StageHasNoMarkers(Minify, scripts, noHtml, env.minify);
    StageHasNoMarkers(HtmlToPdf, scripts, noHtml, env.html);
  }

  /** A run of `run_all` opens and closes with its markers, each once. */
  lemma RunAllBracketed(scripts: Scripts, noHtml: bool, env: PipelineEnv)
    ensures var log := RunAllLog(scripts, noHtml, env);
            log[0] == RunAllStarted && log[|log| - 1] == RunAllFinished &&
            multiset(log)[RunAllStarted] == 1 && multiset(log)[RunAllFinished] == 1
  {
    StagesHaveNoMarkers(scripts, noHtml, env);
    Bracket(StagesLog(scripts, noHtml, env));
  }

  /** Markers put around a log that holds neither occur once each, at the ends. */
  lemma Bracket(mid: seq<Event>)
    requires RunAllStarted !in mid && RunAllFinished !in mid
    ensures var log := [RunAllStarted] + mid + [RunAllFinished];
            log[0] == RunAllStarted && log[|log| - 1] == RunAllFinished &&
            multiset(log)[RunAllStarted] == 1 && multiset(log)[RunAllFinished] == 1
  {
    var log := [RunAllStarted] + mid + [RunAllFinished];
    assert multiset(log) == multiset([RunAllStarted]) + multiset(mid) + multiset([RunAllFinished]);
    assert multiset(mid)[RunAllStarted] == 0 && multiset(mid)[RunAllFinished] == 0;
  }

  /** The CLI chain (manager.py:362-377): translator and minify are always handed to `run_script`,
      even without a path; HTML→PDF is too unless `--no-html` is given, and then its script is not
      looked at. */
  function ChainLog(scripts: Scripts, noHtml: bool, env: PipelineEnv): seq<Event> {
    [Invoked(Translator, RunScript(scripts.translator, false, env.translator)),
     Invoked(Minify, RunScript(scripts.minify, false, env.minify))]
    + (if !noHtml then [HtmlLaunching, Invoked(HtmlToPdf, RunScript(scripts.html, true, env.html))]
       else [HtmlOmittedByFlag])
    + [ChainFinished]
  }

  /** The CLI chain calls `run_script` for translator, minify and, unless `--no-html`, HTML→PDF,
      in that order and whatever the scripts and their results; it ends with one `ChainFinished`. */
  lemma ChainOrder(scripts: Scripts, noHtml: bool, env: PipelineEnv)
    ensures Invocations(ChainLog(scripts, noHtml, env)) == [Translator, Minify] + Only(!noHtml, HtmlToPdf)
    ensures multiset(ChainLog(scripts, noHtml, env))[ChainFinished] == 1
  {
    var t := Invoked(Translator, RunScript(scripts.translator, false, env.translator));
    var m := Invoked(Minify, RunScript(scripts.minify, false, env.minify));
    var html := if !noHtml then [HtmlLaunching, Invoked(HtmlToPdf, RunScript(scripts.html, true, env.html))]
                else [HtmlOmittedByFlag];
    assert ChainLog(scripts, noHtml, env) == [t, m] + html + [ChainFinished];
    ChainParts(t, m, html);
    if !noHtml {
      LaunchInvocations(html[1]);
    } else {
      assert Invocations(html) == Invocations([]) + [];
    }
  }

  /** The launch line before an invocation adds no invocation of its own. */
  lemma LaunchInvocations(e: Event)
    requires e.Invoked?
    ensures Invocations([HtmlLaunching, e]) == [e.stage]
  {
    assert [HtmlLaunching, e][..1] == [HtmlLaunching];
    assert Invocations([HtmlLaunching]) == Invocations([]) + [];
  }

  /** A chain made of two invocations, some lines without a chain end, and the chain end. */
  lemma ChainParts(a: Event, b: Event, html: seq<Event>)
    requires a.Invoked? && b.Invoked? && ChainFinished !in html
    ensures Invocations([a, b] + html + [ChainFinished]) == [a.stage, b.stage] + Invocations(html)
    ensures multiset([a, b] + html + [ChainFinished])[ChainFinished] == 1
  {
    assert [a, b][..1] == [a];
    assert Invocations([a]) == Invocations([]) + [a.stage];
    InvocationsAppend([a, b], html);
    InvocationsAppend([a, b] + html, [ChainFinished]);
    assert Invocations([ChainFinished]) == Invocations([]) + [];
    assert multiset([a, b] + html + [ChainFinished]) == multiset([a, b]) + multiset(html) + multiset([ChainFinished]);
  }

  /** With all three scripts known and the same `no_html` setting, the GUI's `run_all` and the CLI
      chain call `run_script` for the same stages in the same order. */
  lemma GuiAndCliChainsAgree(scripts: Scripts, noHtml: bool, env: PipelineEnv, other: PipelineEnv)
    requires PathGiven(scripts.translator) && PathGiven(scripts.minify) && PathGiven(scripts.html)
    ensures Invocations(RunAllLog(scripts, noHtml, env)) == Invocations(ChainLog(scripts, noHtml, other))
  {
    RunAllOrder(scripts, noHtml, env);
    ChainOrder(scripts, noHtml, other);
  }
}

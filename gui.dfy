/** `ManagerGUI` (manager.py:108-310) without its widgets: the target field's text, the watching
    flag, the `no_html` setting, the detected script paths, `_last_hashes` and the log. The log
    queue is modelled by the sequence of messages put on it, in order. Answers of the file system
    are parameters: which paths exist and their digests, and for each `run_script` call the world
    it meets. */
module Gui {
  import opened Common
  import opened Text
  import opened Targets
  import opened ScriptRunner
  import opened Pipeline
  import opened Watch

  /** The targets that do not exist, in list order (manager.py:270). */
  function Absent(ts: seq<string>, present: string -> bool): (r: seq<string>)
    ensures forall x :: x in r <==> x in ts && !present(x)
    ensures |r| <= |ts|
  {
    if ts == [] then []
    else (if present(ts[0]) then [] else [ts[0]]) + Absent(ts[1..], present)
  }

  /** What visiting one target in the watch loop logs (manager.py:298-305): a removed file is
      reported; a changed one is reported and runs the whole chain right away. */
  function VisitLog(m: Hashes, t: string, cur: Option<Digest>, scripts: Scripts, noHtml: bool,
                    env: PipelineEnv): seq<Event> {
    match Classify(m, t, cur)
    case Vanished => [TargetRemoved(t)]
    case Changed => [ChangeDetected(t)] + RunAllLog(scripts, noHtml, env)
    case Unchanged => []
  }

  /** What the `for t in targets` loop logs, each target compared with the map as the visits
      before it left it; `worlds[i]` is met by the chain a change of `ts[i]` runs. */
  function ScanLog(m: Hashes, ts: seq<string>, hashes: seq<Option<Digest>>, scripts: Scripts,
                   noHtml: bool, worlds: seq<PipelineEnv>): seq<Event>
    requires |hashes| == |ts| && |worlds| == |ts|
  {
    if ts == [] then []
    else
      var n := |ts| - 1;
      ScanLog(m, ts[..n], hashes[..n], scripts, noHtml, worlds[..n])
      + VisitLog(Scan(m, ts[..n], hashes[..n]), ts[n], hashes[n], scripts, noHtml, worlds[n])
  }

  /** One pass of `watch_loop` after its sleep (manager.py:293-306). */
  function TickLog(m: Hashes, ts: seq<string>, hashes: seq<Option<Digest>>, scripts: Scripts,
                   noHtml: bool, worlds: seq<PipelineEnv>): seq<Event>
    requires |hashes| == |ts| && |worlds| == |ts|
  {
    if ts == [] then [NoTargetsToWatch] else ScanLog(m, ts, hashes, scripts, noHtml, worlds)
  }

  /** The targets reported as changed, in order. */
  function Detected(trace: seq<Event>): seq<string> {
    if trace == [] then []
    else Detected(trace[..|trace| - 1]) +
         (if trace[|trace| - 1].ChangeDetected? then [trace[|trace| - 1].target] else [])
  }

  lemma {:induction false} DetectedAppend(a: seq<Event>, b: seq<Event>)
    ensures Detected(a + b) == Detected(a) + Detected(b)
  {
    if b != [] {
      assert (a + b)[..|a + b| - 1] == a + b[..|b| - 1];
      DetectedAppend(a, b[..|b| - 1]);
    } else {
      assert a + b == a;
    }
  }

  lemma {:induction false} DetectedNone(trace: seq<Event>)
    requires forall k :: 0 <= k < |trace| ==> !trace[k].ChangeDetected?
    ensures Detected(trace) == []
  {
    if trace != [] {
      DetectedNone(trace[..|trace| - 1]);
    }
  }

  /** The chain reports no change of its own. */
  lemma RunAllDetectsNothing(scripts: Scripts, noHtml: bool, env: PipelineEnv)
    ensures Detected(RunAllLog(scripts, noHtml, env)) == []
  {
    var log := RunAllLog(scripts, noHtml, env);
    assert forall k :: 0 <= k < |log| ==> !log[k].ChangeDetected?;
    DetectedNone(log);
  }

  /** One visit reports its target as changed exactly when it classifies as changed. */
  lemma VisitDetects(m: Hashes, t: string, cur: Option<Digest>, scripts: Scripts, noHtml: bool,
                     env: PipelineEnv)
    ensures Detected(VisitLog(m, t, cur, scripts, noHtml, env)) ==
            if Classify(m, t, cur) == Changed then [t] else []
  {
    match Classify(m, t, cur)
    case Changed =>
      RunAllDetectsNothing(scripts, noHtml, env);
      DetectedAppend([ChangeDetected(t)], RunAllLog(scripts, noHtml, env));
    case Vanished =>
      assert Detected([TargetRemoved(t)]) == Detected([]) + [];
    case Unchanged =>
  }

  /** One visit runs the chain once when it classifies as changed, and otherwise not at all. */
  lemma VisitRunsChain(m: Hashes, t: string, cur: Option<Digest>, scripts: Scripts, noHtml: bool,
                       env: PipelineEnv)
    ensures multiset(VisitLog(m, t, cur, scripts, noHtml, env))[RunAllStarted] ==
            if Classify(m, t, cur) == Changed then 1 else 0
  {
    if Classify(m, t, cur) == Changed {
      RunAllBracketed(scripts, noHtml, env);
      var log := RunAllLog(scripts, noHtml, env);
      assert multiset([ChangeDetected(t)] + log) == multiset([ChangeDetected(t)]) + multiset(log);
    }
  }

  /** The targets a pass reports as changed are the scan's triggers, and each of them runs the
      chain exactly once: there are as many `run_all` calls as triggers. */
  lemma {:induction false} ScanDispatches(m: Hashes, ts: seq<string>, hashes: seq<Option<Digest>>,
                                          scripts: Scripts, noHtml: bool, worlds: seq<PipelineEnv>)
    requires |hashes| == |ts| && |worlds| == |ts|
    ensures Detected(ScanLog(m, ts, hashes, scripts, noHtml, worlds)) == Triggers(m, ts, hashes)
    ensures multiset(ScanLog(m, ts, hashes, scripts, noHtml, worlds))[RunAllStarted] == |Triggers(m, ts, hashes)|
  {
    if ts != [] {
      var n := |ts| - 1;
      var before := ScanLog(m, ts[..n], hashes[..n], scripts, noHtml, worlds[..n]);
      var visit := VisitLog(Scan(m, ts[..n], hashes[..n]), ts[n], hashes[n], scripts, noHtml, worlds[n]);
      ScanDispatches(m, ts[..n], hashes[..n], scripts, noHtml, worlds[..n]);
      VisitDetects(Scan(m, ts[..n], hashes[..n]), ts[n], hashes[n], scripts, noHtml, worlds[n]);
      VisitRunsChain(Scan(m, ts[..n], hashes[..n]), ts[n], hashes[n], scripts, noHtml, worlds[n]);
      DetectedAppend(before, visit);
      assert multiset(before + visit) == multiset(before) + multiset(visit);
    }
  }

  /** Without changes during the pass: the number of `run_all` calls equals the number of listed
      targets that exist and whose digest is not the stored one; none when nothing changed since
      the watch started. */
  lemma TickRunAllCount(m: Hashes, ts: seq<string>, hashes: seq<Option<Digest>>, scripts: Scripts,
                        noHtml: bool, worlds: seq<PipelineEnv>, h: string -> Option<Digest>)
    requires Snapshot(ts, hashes, h) && |worlds| == |ts|
    ensures multiset(TickLog(m, ts, hashes, scripts, noHtml, worlds))[RunAllStarted] == |ChangedTargets(m, ts, h)|
    ensures multiset(TickLog(StartHashes(ts, h), ts, hashes, scripts, noHtml, worlds))[RunAllStarted] == 0
  {
    ScanDispatches(m, ts, hashes, scripts, noHtml, worlds);
    TriggerCount(m, ts, hashes, h);
    ScanDispatches(StartHashes(ts, h), ts, hashes, scripts, noHtml, worlds);
    QuietWhenUnchanged(ts, hashes, h, m);
  }

  /** One more visit extends the scan's map and log by that visit. */
  lemma ScanStep(m: Hashes, ts: seq<string>, hashes: seq<Option<Digest>>, scripts: Scripts,
                 noHtml: bool, worlds: seq<PipelineEnv>, i: nat)
    requires |hashes| == |ts| && |worlds| == |ts| && i < |ts|
    ensures Scan(m, ts[..i + 1], hashes[..i + 1]) == Record(Scan(m, ts[..i], hashes[..i]), ts[i], hashes[i])
    ensures ScanLog(m, ts[..i + 1], hashes[..i + 1], scripts, noHtml, worlds[..i + 1]) ==
            ScanLog(m, ts[..i], hashes[..i], scripts, noHtml, worlds[..i])
            + VisitLog(Scan(m, ts[..i], hashes[..i]), ts[i], hashes[i], scripts, noHtml, worlds[i])
  {
    assert ts[..i + 1][..i] == ts[..i] && hashes[..i + 1][..i] == hashes[..i];
    assert worlds[..i + 1][..i] == worlds[..i];
  }

  class Manager {
    var targetText: string
    var watching: bool
    var noHtml: bool
    var scripts: Scripts
    var lastHashes: Hashes
    var trace: seq<Event>

    /** `ManagerGUI.__init__`: the field starts as `initial_target or ''`, not watching. */
    constructor (initialTarget: Option<string>, noHtml: bool, scripts: Scripts)
      ensures targetText == initialTarget.GetOr("")
      ensures !watching && this.noHtml == noHtml && this.scripts == scripts
      ensures lastHashes == map[] && trace == []
    {
      targetText := initialTarget.GetOr("");
      watching := false;
      this.noHtml := noHtml;
      this.scripts := scripts;
      lastHashes := map[];
      trace := [];
    }

    /** `get_targets` on the field's current text. */
    function Targets(): seq<string>
      reads this
    {
      GetTargets(targetText)
    }

    /** `select_target` (manager.py:172-177): a non-empty choice of files replaces the field by
        their `';'`-joined paths, which `get_targets` then reads back as the same list. */
    method SelectTarget(paths: seq<string>)
      modifies this
      ensures paths != [] ==> targetText == Join(paths, SEPARATOR) && trace == old(trace) + [Selected(|paths|)]
      ensures paths == [] ==> targetText == old(targetText) && trace == old(trace)
      ensures paths != [] && (forall i :: 0 <= i < |paths| ==> IsTarget(paths[i])) ==> Targets() == paths
      ensures watching == old(watching) && noHtml == old(noHtml) && scripts == old(scripts)
      ensures lastHashes == old(lastHashes)
    {
      if paths != [] {
        targetText := Join(paths, SEPARATOR);
        trace := trace + [Selected(|paths|)];
        if forall i :: 0 <= i < |paths| ==> IsTarget(paths[i]) {
          GetTargetsJoin(paths);
        }
      }
    }

    /** `run_translator` (manager.py:218-224). */
    method RunTranslator(env: ScriptEnv)
      modifies this
      ensures trace == old(trace) + StageLog(Translator, scripts, noHtml, env)
      ensures targetText == old(targetText) && watching == old(watching) && noHtml == old(noHtml)
      ensures scripts == old(scripts) && lastHashes == old(lastHashes)
    {
      if !PathGiven(scripts.translator) {
        trace := trace + [NotFound(Translator)];
        return;
      }
      trace := trace + [Running(Translator)];
      var report := RunScript(scripts.translator, false, env);
      trace := trace + [Invoked(Translator, report), Finished(Translator, report.Succeeded())];
    }

    /** `run_minify` (manager.py:226-232). */
    method RunMinify(env: ScriptEnv)
      modifies this
      ensures trace == old(trace) + StageLog(Minify, scripts, noHtml, env)
      ensures targetText == old(targetText) && watching == old(watching) && noHtml == old(noHtml)
      ensures scripts == old(scripts) && lastHashes == old(lastHashes)
    {
      if !PathGiven(scripts.minify) {
        trace := trace + [NotFound(Minify)];
        return;
      }
      trace := trace + [Running(Minify)];
      var report := RunScript(scripts.minify, false, env);
      trace := trace + [Invoked(Minify, report), Finished(Minify, report.Succeeded())];
    }

    /** `run_html` (manager.py:234-243): the missing script is checked before `no_html`. */
    method RunHtml(env: ScriptEnv)
      modifies this
      ensures trace == old(trace) + StageLog(HtmlToPdf, scripts, noHtml, env)
      ensures targetText == old(targetText) && watching == old(watching) && noHtml == old(noHtml)
      ensures scripts == old(scripts) && lastHashes == old(lastHashes)
    {
      if !PathGiven(scripts.html) {
        trace := trace + [NotFound(HtmlToPdf)];
        return;
      }
      if noHtml {
        trace := trace + [HtmlSkippedByConfig];
        return;
      }
      trace := trace + [Running(HtmlToPdf)];
      var report := RunScript(scripts.html, true, env);
      trace := trace + [Invoked(HtmlToPdf, report), Finished(HtmlToPdf, report.Succeeded())];
    }

    /** `run_all` (manager.py:257-262). */
    method RunAll(env: PipelineEnv)
      modifies this
      ensures trace == old(trace) + RunAllLog(scripts, noHtml, env)
      ensures targetText == old(targetText) && watching == old(watching) && noHtml == old(noHtml)
      ensures scripts == old(scripts) && lastHashes == old(lastHashes)
    {
      trace := trace + [RunAllStarted];
      RunTranslator(env.translator);
      RunMinify(env.minify);
      RunHtml(env.html);
      trace := trace + [RunAllFinished];
    }

    /** `toggle_watch` (manager.py:264-288): starting needs at least one target and every target
        present, and then stores each target's digest; stopping only clears the flag. */
    method ToggleWatch(present: string -> bool, h: string -> Option<Digest>)
      modifies this
      ensures var ts := old(Targets());
              var absent := Absent(ts, present);
              if old(watching) then
                !watching && trace == old(trace) + [WatchStopped] && lastHashes == old(lastHashes)
              else if ts == [] then
                !watching && trace == old(trace) + [NoTargetsSelected] && lastHashes == old(lastHashes)
              else if absent != [] then
                !watching && trace == old(trace) + [TargetsNotFound(|absent|)] && lastHashes == old(lastHashes)
              else
                watching && trace == old(trace) + [WatchStarted(|ts|)] && lastHashes == StartHashes(ts, h)
      ensures targetText == old(targetText) && noHtml == old(noHtml) && scripts == old(scripts)
    {
      if !watching {
        var ts := Targets();
        if ts == [] {
          trace := trace + [NoTargetsSelected];
          return;
        }
        var absent := Absent(ts, present);
        if absent != [] {
          trace := trace + [TargetsNotFound(|absent|)];
          return;
        }
        watching := true;
        lastHashes := StartHashes(ts, h);
        trace := trace + [WatchStarted(|ts|)];
        assert ts == old(Targets());
      } else {
        watching := false;
        trace := trace + [WatchStopped];
      }
    }

    /** The body of the `for t in targets` loop (manager.py:298-306) for one target and its digest. */
    method VisitTarget(t: string, cur: Option<Digest>, env: PipelineEnv)
      modifies this
      ensures lastHashes == Record(old(lastHashes), t, cur)
      ensures trace == old(trace) + VisitLog(old(lastHashes), t, cur, scripts, noHtml, env)
      ensures targetText == old(targetText) && watching == old(watching) && noHtml == old(noHtml)
      ensures scripts == old(scripts)
    {
      if cur.None? {
        trace := trace + [TargetRemoved(t)];
        lastHashes := lastHashes[t := None];
      } else if Get(lastHashes, t) != cur {
        ghost var before := trace;
        trace := trace + [ChangeDetected(t)];
        RunAll(env);
        AppendAssoc(before, [ChangeDetected(t)], RunAllLog(scripts, noHtml, env));
        lastHashes := lastHashes[t := cur];
      }
    }

    /** The `for t in targets` loop (manager.py:297-306): each target is hashed, compared and
        recorded as it is visited, and a changed one runs the whole chain before the next is looked
        at. */
    method ScanTargets(ts: seq<string>, hashes: seq<Option<Digest>>, worlds: seq<PipelineEnv>)
      requires |hashes| == |ts| && |worlds| == |ts|
      modifies this
      ensures lastHashes == Scan(old(lastHashes), ts, hashes)
      ensures trace == old(trace) + ScanLog(old(lastHashes), ts, hashes, scripts, noHtml, worlds)
      ensures targetText == old(targetText) && watching == old(watching) && noHtml == old(noHtml)
      ensures scripts == old(scripts)
    {
      ghost var m0, t0 := lastHashes, trace;
      for i := 0 to |ts|
        invariant lastHashes == Scan(m0, ts[..i], hashes[..i])
        invariant trace == t0 + ScanLog(m0, ts[..i], hashes[..i], scripts, noHtml, worlds[..i])
        invariant targetText == old(targetText) && watching == old(watching)
        invariant noHtml == old(noHtml) && scripts == old(scripts)
      {
        ScanStep(m0, ts, hashes, scripts, noHtml, worlds, i);
        ghost var done := ScanLog(m0, ts[..i], hashes[..i], scripts, noHtml, worlds[..i]);
        VisitTarget(ts[i], hashes[i], worlds[i]);
        AppendAssoc(t0, done, VisitLog(Scan(m0, ts[..i], hashes[..i]), ts[i], hashes[i], scripts, noHtml, worlds[i]));
      }
      assert ts[..|ts|] == ts && hashes[..|ts|] == hashes && worlds[..|ts|] == worlds;
    }

    /** One pass of `watch_loop` after its sleep (manager.py:293-306): the targets are read from the
        field again; without any the pass only reports it. */
    method WatchTick(hashes: seq<Option<Digest>>, worlds: seq<PipelineEnv>)
      requires |hashes| == |Targets()| && |worlds| == |Targets()|
      modifies this
      ensures lastHashes == Scan(old(lastHashes), old(Targets()), hashes)
      ensures trace == old(trace) + TickLog(old(lastHashes), old(Targets()), hashes, scripts, noHtml, worlds)
      ensures targetText == old(targetText) && watching == old(watching) && noHtml == old(noHtml)
      ensures scripts == old(scripts)
    {
      var ts := Targets();
      if ts == [] {
        trace := trace + [NoTargetsToWatch];
        return;
      }
      ScanTargets(ts, hashes, worlds);
    }
  }
}

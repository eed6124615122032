/** The command-line mode (manager.py:331-383): the targets are checked for existence, their
    digests recorded, and then the loop runs, either once (`--once`) or round after round, each
    round scanning every target and running the chain when some target changed. With `--once` the
    single pass does not sleep and runs the chain in the world `onceEnv`. Otherwise the loop ends
    on Ctrl-C, which arrives while the loop sleeps: the `rounds` given are the rounds that complete
    before it. Each round's argument holds what `file_hash` answers for each target, in order, and
    the world the chain meets in that round. */
module Cli {
  import opened Common
  import opened ScriptRunner
  import opened Pipeline
  import opened Watch

  /** The first target that does not exist, `None` when all exist (manager.py:333-336). */
  function FirstAbsent(paths: seq<string>, present: string -> bool): Option<string> {
    if paths == [] then None
    else if !present(paths[0]) then Some(paths[0])
    else FirstAbsent(paths[1..], present)
  }

  /** `FirstAbsent` finds nothing exactly when every target exists, and otherwise names a target
      that is missing and is preceded only by existing ones. */
  lemma {:induction false} FirstAbsentSpec(paths: seq<string>, present: string -> bool)
    ensures FirstAbsent(paths, present).None? <==> forall i :: 0 <= i < |paths| ==> present(paths[i])
    ensures FirstAbsent(paths, present).Some? ==>
              exists i :: 0 <= i < |paths| && paths[i] == FirstAbsent(paths, present).value &&
                          !present(paths[i]) && forall j :: 0 <= j < i ==> present(paths[j])
  {
    if paths != [] && present(paths[0]) {
      FirstAbsentSpec(paths[1..], present);
      assert forall i :: 0 < i < |paths| ==> paths[i] == paths[1..][i - 1];
      if FirstAbsent(paths[1..], present).Some? {
        var i :| 0 <= i < |paths[1..]| && paths[1..][i] == FirstAbsent(paths[1..], present).value &&
                 !present(paths[1..][i]) && forall j :: 0 <= j < i ==> present(paths[1..][j]);
        assert forall j :: 0 <= j < i + 1 ==> present(paths[j]) by {
          forall j | 0 <= j < i + 1 ensures present(paths[j]) {
            if j > 0 { assert paths[j] == paths[1..][j - 1]; }
          }
        }
      }
    }
  }

  /** The validation loop: the targets are looked at in order and the first missing one stops it. */
  method ValidateTargets(paths: seq<string>, present: string -> bool) returns (missing: Option<string>)
    ensures missing == FirstAbsent(paths, present)
  {
    var k := 0;
    while k < |paths|
      invariant 0 <= k <= |paths|
      invariant FirstAbsent(paths, present) == FirstAbsent(paths[k..], present)
    {
      if !present(paths[k]) {
        return Some(paths[k]);
      }
      assert paths[k..][1..] == paths[k + 1..];
      k := k + 1;
    }
    return None;
  }

  /** The console line of one visit in the CLI scan (manager.py:351-360). */
  function VisitNote(m: Hashes, p: string, cur: Option<Digest>): seq<Event> {
    match Classify(m, p, cur)
    case Vanished => [FileVanished(p)]
    case Changed => [FileChanged(p)]
    case Unchanged => []
  }

  /** The console lines of one scan over the targets. */
  function ScanNotes(m: Hashes, paths: seq<string>, hashes: seq<Option<Digest>>): seq<Event>
    requires |hashes| == |paths|
  {
    if paths == [] then []
    else
      var n := |paths| - 1;
      ScanNotes(m, paths[..n], hashes[..n]) + VisitNote(Scan(m, paths[..n], hashes[..n]), paths[n], hashes[n])
  }

  /** The targets a trace reports as changed, in order. */
  function Reported(trace: seq<Event>): seq<string> {
    if trace == [] then []
    else Reported(trace[..|trace| - 1]) +
         (if trace[|trace| - 1].FileChanged? then [trace[|trace| - 1].target] else [])
  }

  lemma {:induction false} ReportedAppend(a: seq<Event>, b: seq<Event>)
    ensures Reported(a + b) == Reported(a) + Reported(b)
  {
    if b != [] {
      assert (a + b)[..|a + b| - 1] == a + b[..|b| - 1];
      ReportedAppend(a, b[..|b| - 1]);
    } else {
      assert a + b == a;
    }
  }

  /** A trace without change lines reports nothing. */
  lemma {:induction false} ReportedNone(trace: seq<Event>)
    requires forall e :: e in trace ==> !e.FileChanged?
    ensures Reported(trace) == []
  {
    if trace != [] {
      assert trace[|trace| - 1] in trace;
      assert forall e :: e in trace[..|trace| - 1] ==> e in trace;
      ReportedNone(trace[..|trace| - 1]);
    }
  }

  /** The chain prints no change line. */
  lemma ChainReportsNothing(scripts: Scripts, noHtml: bool, env: PipelineEnv)
    ensures Reported(ChainLog(scripts, noHtml, env)) == []
  {
    var t := Invoked(Translator, RunScript(scripts.translator, false, env.translator));
    var m := Invoked(Minify, RunScript(scripts.minify, false, env.minify));
    var html := if !noHtml then [HtmlLaunching, Invoked(HtmlToPdf, RunScript(scripts.html, true, env.html))]
                else [HtmlOmittedByFlag];
    assert ChainLog(scripts, noHtml, env) == [t, m] + html + [ChainFinished];
    ReportedPair(t, m);
    if !noHtml {
      ReportedPair(html[0], html[1]);
    } else {
      assert Reported(html) == Reported([]) + [];
    }
    ReportedAppend([t, m], html);
    ReportedAppend([t, m] + html, [ChainFinished]);
    assert Reported([ChainFinished]) == Reported([]) + [];
  }

  /** Two lines that are not change lines report nothing. */
  lemma ReportedPair(x: Event, y: Event)
    requires !x.FileChanged? && !y.FileChanged?
    ensures Reported([x, y]) == []
  {
    assert [x, y][..1] == [x];
    assert Reported([x]) == Reported([]) + [];
  }

  /** A scan reports exactly the targets that trigger, in visit order. */
  lemma {:induction false} ScanReports(m: Hashes, paths: seq<string>, hashes: seq<Option<Digest>>)
    requires |hashes| == |paths|
    ensures Reported(ScanNotes(m, paths, hashes)) == Triggers(m, paths, hashes)
  {
    if paths != [] {
      var n := |paths| - 1;
      ScanReports(m, paths[..n], hashes[..n]);
      var before := Scan(m, paths[..n], hashes[..n]);
      var note := VisitNote(before, paths[n], hashes[n]);
      ReportedAppend(ScanNotes(m, paths[..n], hashes[..n]), note);
      if Classify(before, paths[n], hashes[n]) == Changed {
        assert Reported(note) == Reported([]) + [paths[n]];
      } else if note != [] {
        assert Reported(note) == Reported([]) + [];
      }
    }
  }

  /** A scan prints nothing but vanished and changed lines. */
  lemma {:induction false} ScanNotesOnly(m: Hashes, paths: seq<string>, hashes: seq<Option<Digest>>)
    requires |hashes| == |paths|
    ensures forall e :: e in ScanNotes(m, paths, hashes) ==> e.FileVanished? || e.FileChanged?
  {
    if paths != [] {
      var n := |paths| - 1;
      ScanNotesOnly(m, paths[..n], hashes[..n]);
    }
  }

  /** One loop iteration outside `--once` mode: what the CLI sees in it. */
  datatype Round = Round(hashes: seq<Option<Digest>>, env: PipelineEnv)

  predicate RoundsFit(paths: seq<string>, rounds: seq<Round>) {
    forall k :: 0 <= k < |rounds| ==> |rounds[k].hashes| == |paths|
  }

  /** One round outside `--once` mode: the scan, then the chain once if any target triggered. */
  function RoundLog(m: Hashes, paths: seq<string>, round: Round, scripts: Scripts, noHtml: bool): seq<Event>
    requires |round.hashes| == |paths|
  {
    ScanNotes(m, paths, round.hashes)
    + (if Triggers(m, paths, round.hashes) != [] then ChainLog(scripts, noHtml, round.env) else [])
  }

  /** The stored digests after the given rounds. */
  function LoopHashes(m: Hashes, paths: seq<string>, rounds: seq<Round>): Hashes
    requires RoundsFit(paths, rounds)
  {
    if rounds == [] then m
    else
      var n := |rounds| - 1;
      Scan(LoopHashes(m, paths, rounds[..n]), paths, rounds[n].hashes)
  }

  /** The console lines of the given rounds. */
  function LoopLog(m: Hashes, paths: seq<string>, rounds: seq<Round>, scripts: Scripts, noHtml: bool): seq<Event>
    requires RoundsFit(paths, rounds)
  {
    if rounds == [] then []
    else
      var n := |rounds| - 1;
      LoopLog(m, paths, rounds[..n], scripts, noHtml)
      + RoundLog(LoopHashes(m, paths, rounds[..n]), paths, rounds[n], scripts, noHtml)
  }

  /** The number of the given rounds in which some target triggered. */
  function ActiveRounds(m: Hashes, paths: seq<string>, rounds: seq<Round>): nat
    requires RoundsFit(paths, rounds)
  {
    if rounds == [] then 0
    else
      var n := |rounds| - 1;
      ActiveRounds(m, paths, rounds[..n])
      + (if Triggers(LoopHashes(m, paths, rounds[..n]), paths, rounds[n].hashes) != [] then 1 else 0)
  }

  /** The whole command-line run after argument parsing: a missing target stops it with one line;
      otherwise the targets are announced and, with `--once`, the chain runs exactly once without
      any scan, meeting the world `onceEnv`; without it the rounds run from the digests taken at
      the start, until Ctrl-C. */
  function CliLog(paths: seq<string>, present: string -> bool, h: string -> Option<Digest>, once: bool,
                  noHtml: bool, scripts: Scripts, onceEnv: PipelineEnv, rounds: seq<Round>): seq<Event>
    requires RoundsFit(paths, rounds)
  {
    match FirstAbsent(paths, present)
    case Some(p) => [MissingTarget(p)]
    case None =>
      [Watching(paths)] + (if once then [RunningOnce] else [])
      + WatchLog(StartHashes(paths, h), paths, once, noHtml, scripts, onceEnv, rounds)
  }

  /** The loop of the command-line mode: with `--once` the first pass does not sleep, runs the
      chain and leaves the loop, so Ctrl-C plays no part; otherwise the rounds from the digests
      `start`, and then Ctrl-C. */
  function WatchLog(start: Hashes, paths: seq<string>, once: bool, noHtml: bool, scripts: Scripts,
                    onceEnv: PipelineEnv, rounds: seq<Round>): seq<Event>
    requires RoundsFit(paths, rounds)
  {
    if once then ChainLog(scripts, noHtml, onceEnv)
    else LoopLog(start, paths, rounds, scripts, noHtml) + [UserExit]
  }

  /** The scan of one round (manager.py:351-360): each target is hashed, a vanished one is stored
      as `None` and reported, a changed one is stored, reported and sets `changed`. */
  method ScanPaths(paths: seq<string>, hashes: seq<Option<Digest>>, m: Hashes, changed: bool)
    returns (last: Hashes, notes: seq<Event>, changedAfter: bool)
    requires |hashes| == |paths|
    ensures last == Scan(m, paths, hashes)
    ensures notes == ScanNotes(m, paths, hashes)
    ensures changedAfter == (changed || Triggers(m, paths, hashes) != [])
  {
    last, notes, changedAfter := m, [], changed;
    for j := 0 to |paths|
      invariant last == Scan(m, paths[..j], hashes[..j])
      invariant notes == ScanNotes(m, paths[..j], hashes[..j])
      invariant changedAfter == (changed || Triggers(m, paths[..j], hashes[..j]) != [])
    {
      assert paths[..j + 1][..j] == paths[..j] && hashes[..j + 1][..j] == hashes[..j];
      var p, cur := paths[j], hashes[j];
      if cur.None? {
        notes := notes + [FileVanished(p)];
        last := last[p := None];
      } else if Get(last, p) != cur {
        notes := notes + [FileChanged(p)];
        changedAfter := true;
        last := last[p := cur];
      }
    }
    assert paths[..|paths|] == paths && hashes[..|hashes|] == hashes;
  }

  /** The rounds up to and including round `i`, from those before it. */
  lemma LoopStep(m: Hashes, paths: seq<string>, rounds: seq<Round>, i: nat, scripts: Scripts, noHtml: bool)
    requires RoundsFit(paths, rounds) && i < |rounds|
    ensures LoopHashes(m, paths, rounds[..i + 1]) == Scan(LoopHashes(m, paths, rounds[..i]), paths, rounds[i].hashes)
    ensures LoopLog(m, paths, rounds[..i + 1], scripts, noHtml) ==
            LoopLog(m, paths, rounds[..i], scripts, noHtml)
            + RoundLog(LoopHashes(m, paths, rounds[..i]), paths, rounds[i], scripts, noHtml)
  {
    assert rounds[..i + 1][..i] == rounds[..i];
  }

  /** `main`'s command-line branch (manager.py:331-380). */
  method CliMain(paths: seq<string>, present: string -> bool, h: string -> Option<Digest>, once: bool,
                 noHtml: bool, scripts: Scripts, onceEnv: PipelineEnv, rounds: seq<Round>)
    returns (trace: seq<Event>)
    requires RoundsFit(paths, rounds)
    ensures trace == CliLog(paths, present, h, once, noHtml, scripts, onceEnv, rounds)
  {
    var missing := ValidateTargets(paths, present);
    if missing.Some? {
      return [MissingTarget(missing.value)];
    }
    trace := [Watching(paths)];
    if once {
      trace := trace + [RunningOnce];
    }
    var rest := WatchLoop(paths, StartHashes(paths, h), once, noHtml, scripts, onceEnv, rounds);
    trace := trace + rest;
  }

  /** One pass of the loop body (manager.py:348-377): the scan unless `--once`, then the chain if
      `changed`, which it clears. With `--once` no digest is read, so `round.hashes` is unused. */
  method LoopPass(paths: seq<string>, last: Hashes, changed: bool, once: bool, noHtml: bool,
                  scripts: Scripts, round: Round)
    returns (lastAfter: Hashes, changedAfter: bool, lines: seq<Event>)
    requires !once ==> |round.hashes| == |paths|
    ensures !changedAfter
    ensures once ==> lastAfter == last && lines == (if changed then ChainLog(scripts, noHtml, round.env) else [])
    ensures !once ==> lastAfter == Scan(last, paths, round.hashes)
    ensures !once && !changed ==> lines == RoundLog(last, paths, round, scripts, noHtml)
  {
    lastAfter, changedAfter, lines := last, changed, [];
    if !once {
      lastAfter, lines, changedAfter := ScanPaths(paths, round.hashes, last, changed);
    }
    if changedAfter {
      lines := lines + ChainLog(scripts, noHtml, round.env);
      changedAfter := false;
    }
  }

  /** The `while True` loop of the command-line mode (manager.py:341-383), `changed` starting as
      `--once` says. With `--once` the single pass meets `onceEnv` and ends the loop by `break`;
      otherwise the loop runs the given rounds and ends by Ctrl-C. */
  method WatchLoop(paths: seq<string>, start: Hashes, once: bool, noHtml: bool, scripts: Scripts,
                   onceEnv: PipelineEnv, rounds: seq<Round>) returns (trace: seq<Event>)
    requires RoundsFit(paths, rounds)
    ensures trace == WatchLog(start, paths, once, noHtml, scripts, onceEnv, rounds)
  {
    var last := start;
    var changed := once;
    trace := [];
    var interrupted := true;
    var i := 0;
    while once || i < |rounds|
      invariant 0 <= i <= |rounds|
      invariant once ==> i == 0 && changed && trace == []
      invariant !once ==> !changed
      invariant !once ==> last == LoopHashes(start, paths, rounds[..i])
      invariant !once ==> trace == LoopLog(start, paths, rounds[..i], scripts, noHtml)
      decreases |rounds| - i
    {
      var round := if once then Round([], onceEnv) else rounds[i];
      var lines;
      last, changed, lines := LoopPass(paths, last, changed, once, noHtml, scripts, round);
      trace := trace + lines;
      if once {
        interrupted := false;
        break;
      }
      LoopStep(start, paths, rounds, i, scripts, noHtml);
      i := i + 1;
    }
    if interrupted {
      trace := trace + [UserExit];
    }
    assert rounds[..|rounds|] == rounds;
  }

  /** Counting, invocations and reports split over an appended trace. */
  lemma Glue(a: seq<Event>, b: seq<Event>)
    ensures multiset(a + b)[ChainFinished] == multiset(a)[ChainFinished] + multiset(b)[ChainFinished]
    ensures Invocations(a + b) == Invocations(a) + Invocations(b)
    ensures Reported(a + b) == Reported(a) + Reported(b)
  {
    assert multiset(a + b) == multiset(a) + multiset(b);
    InvocationsAppend(a, b);
    ReportedAppend(a, b);
  }

  /** What the chain contributes to counts, invocations and reports. */
  lemma ChainFacts(scripts: Scripts, noHtml: bool, env: PipelineEnv)
    ensures multiset(ChainLog(scripts, noHtml, env))[ChainFinished] == 1
    ensures Invocations(ChainLog(scripts, noHtml, env)) == [Translator, Minify] + Only(!noHtml, HtmlToPdf)
    ensures Reported(ChainLog(scripts, noHtml, env)) == []
  {
    ChainOrder(scripts, noHtml, env);
    ChainReportsNothing(scripts, noHtml, env);
  }

  /** What a scan contributes: no chain end, no invocation, and its triggers as reports. */
  lemma ScanFacts(m: Hashes, paths: seq<string>, hashes: seq<Option<Digest>>)
    requires |hashes| == |paths|
    ensures multiset(ScanNotes(m, paths, hashes))[ChainFinished] == 0
    ensures Invocations(ScanNotes(m, paths, hashes)) == []
    ensures Reported(ScanNotes(m, paths, hashes)) == Triggers(m, paths, hashes)
  {
    ScanNotesOnly(m, paths, hashes);
    ScanReports(m, paths, hashes);
    InvocationsNone(ScanNotes(m, paths, hashes));
    assert ChainFinished !in ScanNotes(m, paths, hashes);
  }

  /** Within one round the chain runs once if any target triggered and not at all otherwise,
      however many targets changed; the scan itself calls no script and the chain reports no
      change. */
  lemma RoundChainOnce(m: Hashes, paths: seq<string>, round: Round, scripts: Scripts, noHtml: bool)
    requires |round.hashes| == |paths|
    ensures var fired := Triggers(m, paths, round.hashes) != [];
            var log := RoundLog(m, paths, round, scripts, noHtml);
            multiset(log)[ChainFinished] == (if fired then 1 else 0) &&
            Invocations(log) == (if fired then [Translator, Minify] + Only(!noHtml, HtmlToPdf) else []) &&
            Reported(log) == Triggers(m, paths, round.hashes)
  {
    var notes := ScanNotes(m, paths, round.hashes);
    ScanFacts(m, paths, round.hashes);
    if Triggers(m, paths, round.hashes) != [] {
      ChainFacts(scripts, noHtml, round.env);
      Glue(notes, ChainLog(scripts, noHtml, round.env));
    } else {
      Glue(notes, []);
    }
  }

  /** Without changes during a round, it reports each target changed since the stored digests
      once, and runs the chain exactly when there is one. */
  lemma RoundReactsToChanges(m: Hashes, paths: seq<string>, round: Round, scripts: Scripts, noHtml: bool,
                             h: string -> Option<Digest>)
    requires Snapshot(paths, round.hashes, h)
    ensures forall x :: x in Reported(RoundLog(m, paths, round, scripts, noHtml)) <==> x in paths && ChangedSince(m, x, h)
    ensures multiset(RoundLog(m, paths, round, scripts, noHtml))[ChainFinished] == 1 <==>
              exists x :: x in paths && ChangedSince(m, x, h)
  {
    RoundChainOnce(m, paths, round, scripts, noHtml);
    TriggersExactly(m, paths, round.hashes, h);
    var r := Triggers(m, paths, round.hashes);
    if r != [] {
      assert r[0] in r;
    }
  }

  /** Over the rounds of a run the chain runs once per round in which a target triggered, so at
      most once per round. */
  lemma {:induction false} LoopChains(m: Hashes, paths: seq<string>, rounds: seq<Round>, scripts: Scripts, noHtml: bool)
    requires RoundsFit(paths, rounds)
    ensures multiset(LoopLog(m, paths, rounds, scripts, noHtml))[ChainFinished] == ActiveRounds(m, paths, rounds)
  {
    if rounds != [] {
      var n := |rounds| - 1;
      LoopChains(m, paths, rounds[..n], scripts, noHtml);
      RoundChainOnce(LoopHashes(m, paths, rounds[..n]), paths, rounds[n], scripts, noHtml);
      var a := LoopLog(m, paths, rounds[..n], scripts, noHtml);
      var b := RoundLog(LoopHashes(m, paths, rounds[..n]), paths, rounds[n], scripts, noHtml);
      assert multiset(a + b) == multiset(a) + multiset(b);
    }
  }

  /** A first round that finds every target as it was at the start runs no chain, and neither does
      a round that finds the targets as the previous round left them. */
  lemma QuietRounds(m: Hashes, paths: seq<string>, first: Round, next: Round, scripts: Scripts, noHtml: bool,
                    h: string -> Option<Digest>)
    requires Snapshot(paths, first.hashes, h) && Snapshot(paths, next.hashes, h)
    ensures multiset(RoundLog(StartHashes(paths, h), paths, first, scripts, noHtml))[ChainFinished] == 0
    ensures multiset(RoundLog(Scan(m, paths, first.hashes), paths, next, scripts, noHtml))[ChainFinished] == 0
  {
    QuietWhenUnchanged(paths, first.hashes, h, StartHashes(paths, h));
    RoundChainOnce(StartHashes(paths, h), paths, first, scripts, noHtml);
    ScanRecords(m, paths, first.hashes, h);
    assert next.hashes == first.hashes;
    QuietWhenUnchanged(paths, first.hashes, h, m);
    RoundChainOnce(Scan(m, paths, first.hashes), paths, next, scripts, noHtml);
  }

  /** With every target present, the run announces them and goes on to the loop. */
  lemma AllPresentLog(paths: seq<string>, present: string -> bool, h: string -> Option<Digest>, once: bool,
                      noHtml: bool, scripts: Scripts, onceEnv: PipelineEnv, rounds: seq<Round>)
    requires RoundsFit(paths, rounds)
    requires forall i :: 0 <= i < |paths| ==> present(paths[i])
    ensures CliLog(paths, present, h, once, noHtml, scripts, onceEnv, rounds) ==
            [Watching(paths)] + (if once then [RunningOnce] else [])
            + WatchLog(StartHashes(paths, h), paths, once, noHtml, scripts, onceEnv, rounds)
  {
    FirstAbsentSpec(paths, present);
  }

  /** A missing target ends the run with one line naming a target that does not exist: no digest
      is taken and no script runs. */
  lemma MissingTargetStops(paths: seq<string>, present: string -> bool, h: string -> Option<Digest>, once: bool,
                           noHtml: bool, scripts: Scripts, onceEnv: PipelineEnv, rounds: seq<Round>)
    requires RoundsFit(paths, rounds) && exists i :: 0 <= i < |paths| && !present(paths[i])
    ensures var log := CliLog(paths, present, h, once, noHtml, scripts, onceEnv, rounds);
            |log| == 1 && log[0].MissingTarget? && log[0].target in paths && !present(log[0].target)
  {
    FirstAbsentSpec(paths, present);
  }

  /** With `--once` and every target present, the run is the announcement and one chain,
      whatever the digests and the rounds. */
  lemma OnceLog(paths: seq<string>, present: string -> bool, h: string -> Option<Digest>,
                noHtml: bool, scripts: Scripts, onceEnv: PipelineEnv, rounds: seq<Round>)
    requires RoundsFit(paths, rounds)
    requires forall i :: 0 <= i < |paths| ==> present(paths[i])
    ensures CliLog(paths, present, h, true, noHtml, scripts, onceEnv, rounds) ==
            [Watching(paths), RunningOnce] + ChainLog(scripts, noHtml, onceEnv)
  {
    AllPresentLog(paths, present, h, true, noHtml, scripts, onceEnv, rounds);
    assert [Watching(paths)] + [RunningOnce] == [Watching(paths), RunningOnce];
  }

  /** With `--once` and every target present, the chain runs exactly once: nothing is scanned or
      reported, and the scripts are called in chain order. */
  lemma OnceRunsChainOnce(paths: seq<string>, present: string -> bool, h: string -> Option<Digest>,
                          noHtml: bool, scripts: Scripts, onceEnv: PipelineEnv, rounds: seq<Round>)
    requires RoundsFit(paths, rounds)
    requires forall i :: 0 <= i < |paths| ==> present(paths[i])
    ensures var log := CliLog(paths, present, h, true, noHtml, scripts, onceEnv, rounds);
            multiset(log)[ChainFinished] == 1 &&
            Invocations(log) == [Translator, Minify] + Only(!noHtml, HtmlToPdf) &&
            Reported(log) == []
  {
    OnceLog(paths, present, h, noHtml, scripts, onceEnv, rounds);
    var head: seq<Event> := [Watching(paths), RunningOnce];
    ChainFacts(scripts, noHtml, onceEnv);
    Glue(head, ChainLog(scripts, noHtml, onceEnv));
    AnnouncementQuiet(paths);
  }

  /** The two announcement lines of `--once` call nothing, report nothing and end no chain. */
  lemma AnnouncementQuiet(paths: seq<string>)
    ensures Invocations([Watching(paths), RunningOnce]) == []
    ensures Reported([Watching(paths), RunningOnce]) == []
    ensures multiset([Watching(paths), RunningOnce])[ChainFinished] == 0
  {
    var one: seq<Event> := [Watching(paths)];
    var two: seq<Event> := one + [RunningOnce];
    assert two[..1] == one && one[..0] == [];
    assert Invocations(one) == Invocations([]) + [];
    assert Invocations(two) == Invocations(one) + [];
    assert Reported(one) == Reported([]) + [];
    assert Reported(two) == Reported(one) + [];
    assert two == [Watching(paths), RunningOnce];
  }

  /** Without `--once`, a run with every target present calls the chain once per round in which a
      target triggered and ends with the Ctrl-C line. */
  lemma WatchRunChains(paths: seq<string>, present: string -> bool, h: string -> Option<Digest>,
                       noHtml: bool, scripts: Scripts, onceEnv: PipelineEnv, rounds: seq<Round>)
    requires RoundsFit(paths, rounds)
    requires forall i :: 0 <= i < |paths| ==> present(paths[i])
    ensures var log := CliLog(paths, present, h, false, noHtml, scripts, onceEnv, rounds);
            multiset(log)[ChainFinished] == ActiveRounds(StartHashes(paths, h), paths, rounds) &&
            log[0] == Watching(paths) && log[|log| - 1] == UserExit
  {
    AllPresentLog(paths, present, h, false, noHtml, scripts, onceEnv, rounds);
    var pre: seq<Event> := [Watching(paths)] + [];
    var loop := LoopLog(StartHashes(paths, h), paths, rounds, scripts, noHtml);
    var w := WatchLog(StartHashes(paths, h), paths, false, noHtml, scripts, onceEnv, rounds);
    assert w == loop + [UserExit];
    LoopChains(StartHashes(paths, h), paths, rounds, scripts, noHtml);
    Glue(loop, [UserExit]);
    Glue(pre, w);
  }
}

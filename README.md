# Web portfolio manager: a Dafny model of `manager.py`

`manager.py` coordinates three helper scripts of a web portfolio: a translator, an asset
minifier and an HTML→PDF generator. At start-up it picks the active script of each helper's
directory (`find_latest_script`). It then runs in one of two modes:

- a Tk window, where buttons run each stage or the whole chain (`run_all`) and a watch loop
  re-runs the chain whenever one of the selected target files changes;
- a command-line loop that checks the given targets, takes their digests and then, round after
  round, rescans them and runs the chain once per round in which something changed (or exactly
  once with `--once`).

The model replaces every answer of the outside world by a value: the directory listing with each
entry's mtime, which paths exist, what `file_hash` answers at each visit, and what each
`run_script` launch gives. What the program prints or logs is modelled as a trace of `Event`s,
one per line, with the message texts abstracted to their meaning. Every call of `run_script`
also leaves an `Invoked(stage, report)` event, so the dispatch order can be read off a trace.

Modules, in dependency order:

- `Common`: `Option` and the abstract `Digest`.
- `Text`: Python's `strip()`, `split(';')` and `';'.join`, over ASCII whitespace.
- `Targets`: `get_targets` and its round trip with `select_target`'s join.
- `ScriptLocator`: `find_latest_script`, as a specification function `Locate` and an
  imperative method over the listing.
- `ScriptRunner`: the decision `run_script` takes.
- `Pipeline`: the three stage buttons, `run_all`, and the command-line chain.
- `Watch`: the map from target to last digest, shared by both watch loops.
- `Gui`: the `Manager` class, which holds the state of `ManagerGUI`.
- `Cli`: the command-line branch of `main`.

## Model

| member | source | states |
|---|---|---|
| Text.SpaceRun | manager.py:80 | the length of the longest whitespace prefix: all of it is whitespace and the next character is not |
| Text.DigitRun | manager.py:80 | the length of the longest ASCII digit prefix (the `\d+` group) |
| Text.TrailingSpaceRun | manager.py:180 | the length of the longest whitespace suffix |
| Text.Strip | manager.py:180 | `strip()` gives a contiguous part of the string starting after its leading whitespace, with no surrounding whitespace |
| Text.StripBounds | manager.py:180 | every non-whitespace character lies inside the part `strip()` keeps |
| Text.StripEmpty | manager.py:180-182 | `strip()` is empty exactly for a string of whitespace |
| Text.StripChars | manager.py:183 | `strip()` adds no character |
| Text.StripStripped | manager.py:183 | a string without surrounding whitespace is its own `strip()` |
| Text.StripKeeps | manager.py:183 | `strip()` keeps every non-whitespace character |
| Text.Split | manager.py:183 | `split(';')` gives at least one piece and no piece holds the separator |
| Text.JoinSplit | manager.py:183 | joining the pieces of a split gives back the string |
| Text.SplitJoin | manager.py:176 | splitting a join of separator-free pieces gives back the pieces |
| Text.SplitNoSeparator | manager.py:183 | a string without separator splits into itself |
| Text.SplitAfterPiece | manager.py:183 | splitting `p;rest` gives `p` followed by the pieces of `rest` |
| Text.JoinEnds | manager.py:176 | a join starts with the first piece and ends with the last |
| Text.JoinContains | manager.py:176 | every character of a piece occurs in the join |
| Text.JoinOnlyPieces | manager.py:176 | every non-separator character of the join comes from some piece |
| Targets.CleanPartsAreTargets | manager.py:183 | the kept pieces are non-empty, stripped and separator-free |
| Targets.CleanPartsEmpty | manager.py:183 | no piece is kept exactly when every piece is blank |
| Targets.CleanPartsTargets | manager.py:183 | pieces that are already targets are kept unchanged and in order |
| Targets.GetTargetsAreTargets | manager.py:179-184 | every path `get_targets` returns is non-empty, has no surrounding whitespace and contains no `;` |
| Targets.BlankFieldNoTargets | manager.py:180-182 | a field of whitespace and separators gives no targets |
| Targets.VisibleCharacterGivesTarget | manager.py:179-184 | one character that is neither whitespace nor `;` gives at least one target |
| Targets.GetTargetsEmpty | manager.py:179-184 | the list is empty if and only if the field holds only whitespace and `;` |
| Targets.JoinedTargetsStripped | manager.py:176 | the join of targets is non-empty and has no surrounding whitespace |
| Targets.GetTargetsJoin | manager.py:176-184 | `get_targets` reads back exactly the paths `select_target` joined, when each is non-empty, stripped and `;`-free |
| ScriptLocator.FirstMaxUnique | manager.py:89-90 | the head of a stable descending sort is unique |
| ScriptLocator.FirstMax | manager.py:89-90 | finds the head of a stable descending sort: a greatest key, strictly greater than every earlier key |
| ScriptLocator.CandidatesMembers | manager.py:73 | an entry is a candidate exactly when it is listed and its name ends with `.py` |
| ScriptLocator.CandidatesAllPy | manager.py:73 | a listing of `.py` names is its own candidate list |
| ScriptLocator.CandidatesAppend | manager.py:73 | the filter keeps listing order across concatenation |
| ScriptLocator.LeadingZero | manager.py:84 | `int` of the digit group ignores leading zeros |
| ScriptLocator.NumericPrefixSound | manager.py:80 | a reported prefix comes from a match of `^\s*(\d+)[_\-]` and is the value of its group |
| ScriptLocator.NumericPrefixComplete | manager.py:80 | every match of the pattern gives the reported prefix, so name matches if and only if a prefix is reported |
| ScriptLocator.NoPrefixWhenLetter | manager.py:80 | a name starting with neither whitespace nor a digit has no prefix |
| ScriptLocator.TwoDigitPrefix | manager.py:80-84 | two digits and `_` or `-` give the two-digit decimal value |
| ScriptLocator.SingleDigitPrefix | manager.py:80-84 | one digit and `_` or `-` give that digit's value |
| ScriptLocator.PrefixOfTen | manager.py:80-84 | `10_b.py` has prefix 10 |
| ScriptLocator.PrefixesOfTie | manager.py:80-84 | `01-x.py` and `1_y.py` both have prefix 1 |
| ScriptLocator.NumberedComplete | manager.py:78-86 | every numbered candidate has its `(prefix, mtime or 0, path)` tuple in `numbered` |
| ScriptLocator.NumberedSound | manager.py:78-86 | every tuple in `numbered` belongs to a numbered candidate |
| ScriptLocator.NumberedAppend | manager.py:78-86 | `numbered` keeps candidate order across concatenation |
| ScriptLocator.NumberedSnoc | manager.py:78-86 | one more candidate adds its tuple exactly when it is numbered |
| ScriptLocator.NumberedNone | manager.py:78-88 | without numbered candidates `numbered` stays empty |
| ScriptLocator.SortedHead | manager.py:89-90 | the scan finds the head of the stable descending sort |
| ScriptLocator.CollectNumbered | manager.py:78-86 | the loop builds exactly `numbered` |
| ScriptLocator.ReadAllMtimes | manager.py:99-100 | the key pass succeeds if and only if every candidate's mtime can be read |
| ScriptLocator.FindLatestScript | manager.py:65-101 | the method returns what the selection policy `Locate` gives |
| ScriptLocator.LocateNoScript | manager.py:71-75 | nothing is found if and only if the path is not a directory or lists no `.py` file |
| ScriptLocator.LocateNumberedHead | manager.py:88-90 | with a numbered candidate the result is the head of the sorted `numbered` |
| ScriptLocator.NumberedHeadBest | manager.py:88-90 | that head is a numbered candidate whose key no other numbered candidate exceeds |
| ScriptLocator.NumberedHeadBeats | manager.py:88-90 | no numbered candidate has a greater key than the head |
| ScriptLocator.LocateNumbered | manager.py:78-90 | with a numbered candidate the hint is never consulted, and the result is the first numbered candidate with the greatest `(prefix, mtime or 0)` |
| ScriptLocator.StrictlyGreatestPrefixWins | manager.py:88-90 | a candidate whose prefix is strictly greatest is chosen, whatever the mtimes |
| ScriptLocator.GreaterPrefixWins | manager.py:88-90 | of two numbered `.py` files the one with the greater prefix is chosen, whatever the hint |
| ScriptLocator.LargestPrefixWins | manager.py:67-90 | prefixes compare as numbers: `10_b.py` beats `9_a.py` |
| ScriptLocator.TieKeepsListingOrder | manager.py:89-90 | equal keys keep listing order, and names not ending in `.py` are ignored |
| ScriptLocator.TwoCandidates | manager.py:73 | a name not ending in `.py` is dropped from the candidates |
| ScriptLocator.TwoNumbered | manager.py:78-86 | two numbered candidates give their two tuples in order |
| ScriptLocator.EqualKeysFirst | manager.py:89-90 | of two equal keys the first heads the sort |
| ScriptLocator.LocateUnnumbered | manager.py:92-101 | without numbered candidates an existing hint wins; otherwise an unreadable mtime raises |
| ScriptLocator.LocateNewest | manager.py:98-101 | otherwise the result is a candidate with the greatest mtime, first in listing order on ties |
| ScriptLocator.LocateFallback | manager.py:92-101 | the branches after an empty `numbered`: hint, then error, then newest |
| ScriptLocator.HintWithoutNumbers | manager.py:92-96 | `a.py`, `b.py` with hint `b.py` give `b.py`, whatever the mtimes |
| ScriptLocator.NewestWithoutNumbers | manager.py:98-101 | `x.py` (mtime 5) and `y.py` (mtime 9) give `y.py` |
| ScriptRunner.RunScript | manager.py:32-50 | success if and only if the path is given and exists, the launch starts, and the run is interactive or exits 0; nothing is launched without a path or file |
| ScriptRunner.NoPathIgnoresWorld | manager.py:33-35 | without a path the world is never consulted |
| ScriptRunner.InteractiveIgnoresExitCode | manager.py:42-44 | a detached launch never reads an exit status |
| Pipeline.InvocationsAppend | manager.py:257-262 | the `run_script` calls of a concatenated log are those of its parts |
| Pipeline.InvocationsNone | manager.py:351-360 | a log without calls has no invocations |
| Pipeline.StageInvocations | manager.py:218-243 | a stage calls `run_script` exactly when its script is known and, for HTML→PDF, `no_html` is off |
| Pipeline.RunAllOrder | manager.py:257-262 | `run_all` attempts translator, then minify, then HTML→PDF, each only on its own condition and whatever the earlier results |
| Pipeline.HtmlMissingComesFirst | manager.py:234-240 | a missing HTML→PDF script is reported whatever `no_html` says |
| Pipeline.StageHasNoMarkers | manager.py:218-243 | no stage logs a `run_all` marker |
| Pipeline.StagesHaveNoMarkers | manager.py:259-261 | the stage sequence logs no marker |
| Pipeline.Bracket | manager.py:258-262 | markers around a marker-free log occur once each, at the ends |
| Pipeline.RunAllBracketed | manager.py:257-262 | `run_all` opens and closes with its markers, once each |
| Pipeline.ChainOrder | manager.py:362-377 | the command-line chain calls translator, minify and, unless `--no-html`, HTML→PDF, and ends once |
| Pipeline.LaunchInvocations | manager.py:371-372 | the launch line adds no invocation |
| Pipeline.ChainParts | manager.py:362-377 | a chain's invocations are its parts' |
| Pipeline.GuiAndCliChainsAgree | manager.py:257-262 | with all scripts known, the window's `run_all` and the command-line chain call the same stages in the same order |
| Watch.Classify | manager.py:299-303 | a visit finds the file vanished if and only if there is no digest, and changed if and only if the digest differs from the stored one |
| Watch.Record | manager.py:299-306 | one visit stores the current digest or `None`, and leaves every other key as it was |
| Watch.ScanFrame | manager.py:297-306 | a scan adds the listed keys and keeps every unlisted entry |
| Watch.ScanRecords | manager.py:297-306 | after a scan every listed target is stored with its current digest, `None` for a missing file |
| Watch.TriggersListed | manager.py:297-306 | every trigger is a listed target |
| Watch.TriggersExactly | manager.py:299-306 | the triggers are exactly the listed targets that exist and differ from the stored digest, each once, duplicates in the list included |
| Watch.TriggerCount | manager.py:299-306 | there are as many triggers as changed listed targets |
| Watch.QuietWhenUnchanged | manager.py:340-360 | a scan right after the start, or a repeated scan over unchanged files, triggers nothing |
| Gui.Absent | manager.py:270 | the missing targets are exactly the listed ones that do not exist |
| Gui.DetectedAppend | manager.py:297-306 | reports of a concatenated log are those of its parts |
| Gui.DetectedNone | manager.py:297-306 | a log without change lines reports nothing |
| Gui.RunAllDetectsNothing | manager.py:257-262 | `run_all` reports no change |
| Gui.VisitDetects | manager.py:303-305 | a visit reports its target exactly when it is changed |
| Gui.VisitRunsChain | manager.py:303-306 | a visit runs `run_all` once when its target changed, and otherwise not at all |
| Gui.ScanDispatches | manager.py:297-306 | a pass reports its triggers in order, with one `run_all` per trigger |
| Gui.TickRunAllCount | manager.py:297-306 | the number of `run_all` calls in a tick equals the number of listed targets that exist and differ from the stored digest; none right after the start |
| Gui.ScanStep | manager.py:297-306 | one more visit extends the map and the log by that visit |
| Gui.Manager.constructor | manager.py:109-127 | the field starts as `initial_target or ''`, not watching, with the given scripts |
| Gui.Manager.SelectTarget | manager.py:172-177 | a non-empty choice replaces the field by the joined paths, which read back as the chosen list; an empty one changes nothing |
| Gui.Manager.RunTranslator | manager.py:218-224 | the translator stage's log is appended and nothing else changes |
| Gui.Manager.RunMinify | manager.py:226-232 | the minify stage's log is appended and nothing else changes |
| Gui.Manager.RunHtml | manager.py:234-243 | the HTML→PDF stage's log is appended, missing script checked before `no_html` |
| Gui.Manager.RunAll | manager.py:257-262 | the three stage logs are appended between the markers |
| Gui.Manager.ToggleWatch | manager.py:264-288 | stopping clears the flag; starting needs a non-empty list of existing targets and stores their digests; otherwise it reports why and stays off |
| Gui.Manager.VisitTarget | manager.py:298-306 | one target visit updates the map and logs (and runs the chain) as `Record` and `VisitLog` say |
| Gui.Manager.ScanTargets | manager.py:297-306 | the loop leaves the map of `Scan` and the log of `ScanLog`, visiting in list order |
| Gui.Manager.WatchTick | manager.py:293-306 | one pass re-reads the targets from the field: none gives one line; otherwise the scan |
| Cli.FirstAbsentSpec | manager.py:333-336 | nothing is missing if and only if every target exists; otherwise the named target is missing and only existing targets precede it |
| Cli.ValidateTargets | manager.py:333-336 | the validation loop stops at the first missing target |
| Cli.ReportedAppend | manager.py:351-360 | reports of a concatenated log are those of its parts |
| Cli.ReportedNone | manager.py:351-360 | a log without change lines reports nothing |
| Cli.ReportedPair | manager.py:362-377 | two non-change lines report nothing |
| Cli.ChainReportsNothing | manager.py:362-377 | the chain prints no change line |
| Cli.ScanReports | manager.py:351-360 | a scan reports exactly its triggers in visit order |
| Cli.ScanNotesOnly | manager.py:351-360 | a scan prints only vanished and changed lines |
| Cli.ScanPaths | manager.py:351-360 | the scan leaves the map of `Scan`, prints its notes, and sets `changed` exactly when a target triggered |
| Cli.LoopStep | manager.py:347-377 | one more round extends the map and the log by that round |
| Cli.CliMain | manager.py:331-383 | the command-line run produces the log `CliLog` describes: one line for a missing target; otherwise the announcement, then with `--once` exactly one chain, or else the rounds and the Ctrl-C line |
| Cli.LoopPass | manager.py:348-377 | one pass scans unless `--once` (then no digest is read), runs the chain if `changed`, and always clears `changed` |
| Cli.WatchLoop | manager.py:341-383 | the loop produces `WatchLog`: with `--once` one pass that runs the chain and breaks out, whatever the rounds; otherwise the rounds and then the Ctrl-C line |
| Cli.Glue | manager.py:347-383 | chain ends, invocations and reports split over a concatenated log |
| Cli.ChainFacts | manager.py:362-377 | the chain ends once, calls the stages in order and reports nothing |
| Cli.ScanFacts | manager.py:351-360 | a scan ends no chain, calls nothing and reports its triggers |
| Cli.RoundChainOnce | manager.py:349-377 | a round runs the chain once if some target triggered, however many did, and not at all otherwise |
| Cli.RoundReactsToChanges | manager.py:351-377 | a round reports each target changed since the stored digests, and runs the chain if and only if there is one |
| Cli.LoopChains | manager.py:347-377 | over a run the chain runs once per active round |
| Cli.QuietRounds | manager.py:340-360 | the first round after an unchanged start, and a round over files unchanged since the previous one, run no chain |
| Cli.AllPresentLog | manager.py:331-345 | with every target present the run announces them and goes on to the loop |
| Cli.MissingTargetStops | manager.py:332-336 | a missing target ends the run with one line naming a listed target that does not exist |
| Cli.OnceLog | manager.py:341-380 | with `--once` and every target present the run is the announcement and one chain, whatever the digests and the rounds |
| Cli.OnceRunsChainOnce | manager.py:341-380 | with `--once` the chain runs exactly once, nothing is scanned or reported, and the stages are called in order |
| Cli.AnnouncementQuiet | manager.py:338-342 | the announcement lines call, report and end nothing |
| Cli.WatchRunChains | manager.py:338-383 | without `--once`, the chain runs once per active round, and the run starts with the announcement and ends with the Ctrl-C line |

## Left out

- The Tk window (widgets, labels, `process_queue`, `after` timers, `on_close`): user interface only. Log lines are modelled as trace events in the order they are queued.
- Threads, the `threaded` wrapper and the log queue: concurrency is not modelled. Each button runs to completion. The race between starting the watch thread and storing `_last_hashes` (manager.py:280-283) is not captured.
- `subprocess.Popen`, `subprocess.run` and `sys.executable`: foreign process calls. A launch is an input that either raises or gives an exit status.
- `hashlib.sha256` and the chunked read of `file_hash` (manager.py:18-29): a digest is an abstract string. `file_hash` is an oracle answering a digest or `None` for a missing file. It catches only `FileNotFoundError`, so any other read error propagates out of both watch loops; the model has no such answer.
- `os.listdir`, `getmtime`, `exists`, `isdir`, `abspath` and `join`: file-system I/O, passed in as values. Path joining and `abspath` (manager.py:332) are the identity. listdir errors are not modelled.
- mtimes are integers, not floats.
- The float interval with its 2.0 fallback and `time.sleep` (manager.py:274-277, 292, 350): floats and time.
- `argparse`, the choice between window and command line (manager.py:313-330) and `sys.exit(1)`: argument plumbing. Two details of the code are therefore not captured. With `target` and `targets` both positional, the first positional name fills `target`, so the command line watches only the second and later names. `--gui` then opens the window with that first name.
- `KeyboardInterrupt`: Ctrl-C is modelled as the end of the given rounds, arriving while the loop sleeps. Ctrl-C in the middle of a scan or a chain is not modelled.
- `detect_scripts` (manager.py:186-195) and `run_portfolio_updater` (manager.py:245-255): they only re-run the modelled `find_latest_script` and `run_script` and update labels.
- Message texts: each line is a constructor carrying its data, not the Spanish or English text.
- Text.IsSpace: whitespace is the ASCII part of Python's `str.isspace()` and of the regex `\s`. Non-ASCII whitespace and non-ASCII digits for `\d` are not modelled.
- ScriptLocator.SortedHead: the in-place `sort(reverse=True)` is modelled by the one element the code reads, the head of the sorted list. The order of the other elements is not modelled.
- Gui.Manager.WatchTick: models one pass of `while self.watching`. Stopping the loop between passes is done by `ToggleWatch` and is not modelled as an interleaving.
- The window's HTML→PDF button checks for a missing script before `no_html`. The command-line chain checks `--no-html` first and hands a missing path to `run_script`. Both orders are modelled as written.

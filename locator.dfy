/** `find_latest_script` (manager.py:65-101): which `.py` file of a script directory is the active one.
    The directory is given as values: whether it is a directory, its listing in `os.listdir` order with
    each entry's `getmtime` result, and whether `dir/hint` exists. Paths are entry names; joining them
    to the directory is left abstract. */
module ScriptLocator {
  import opened Common
  import opened Text

  /** One `os.listdir` entry and what `os.path.getmtime` gives for it (`None` when it raises). */
  datatype Entry = Entry(name: string, mtime: Option<int>)

  /** The outcome: no script, the chosen path, or the exception the mtime sort raises. */
  datatype Located = NoScript | Found(path: string) | StatError

  /** The sort key `(prefix, mtime)`; a plain mtime sort uses prefix 0 throughout. */
  datatype Key = Key(prefix: nat, mtime: int)

  /** A path with its sort key: the tuples of `numbered`, or a path of `full_paths` with its mtime. */
  datatype Ranked = Ranked(key: Key, path: string)

  /** Python's tuple order on keys. */
  predicate KeyLess(a: Key, b: Key) {
    a.prefix < b.prefix || (a.prefix == b.prefix && a.mtime < b.mtime)
  }

  /** `i` is where a stable sort with `reverse=True` puts its first element: a greatest key, and every
      earlier element has a strictly smaller one. */
  predicate IsFirstMax(rs: seq<Ranked>, i: int) {
    && 0 <= i < |rs|
    && (forall j :: 0 <= j < |rs| ==> !KeyLess(rs[i].key, rs[j].key))
    && (forall j :: 0 <= j < i ==> KeyLess(rs[j].key, rs[i].key))
  }

  /** At most one position is first among the greatest keys. */
  lemma FirstMaxUnique(rs: seq<Ranked>, i: int, j: int)
    requires IsFirstMax(rs, i) && IsFirstMax(rs, j)
    ensures i == j
  {
    assert !KeyLess(rs[i].key, rs[j].key) && !KeyLess(rs[j].key, rs[i].key);
  }

  /** The head of the stable descending sort of a non-empty list, found left to right. */
  function FirstMax(rs: seq<Ranked>): (i: nat)
    requires |rs| > 0
    ensures IsFirstMax(rs, i)
  {
    if |rs| == 1 then 0
    else
      var init := rs[..|rs| - 1];
      var j := FirstMax(init);
      assert forall k :: 0 <= k < |init| ==> init[k] == rs[k];
      if KeyLess(rs[j].key, rs[|rs| - 1].key) then |rs| - 1 else j
  }

  predicate EndsWithPy(name: string) {
    |name| >= 3 && name[|name| - 3..] == ".py"
  }

  /** The listed entries whose name ends with `.py`, in listing order (manager.py:73). */
  function Candidates(listing: seq<Entry>): seq<Entry> {
    if listing == [] then []
    else (if EndsWithPy(listing[0].name) then [listing[0]] else []) + Candidates(listing[1..])
  }

  /** The candidates are exactly the listed `.py` entries. */
  lemma {:induction false} CandidatesMembers(listing: seq<Entry>)
    ensures forall e :: e in Candidates(listing) <==> e in listing && EndsWithPy(e.name)
  {
    if listing != [] {
      CandidatesMembers(listing[1..]);
      assert forall e :: e in listing <==> e == listing[0] || e in listing[1..];
    }
  }

  /** The value of a run of decimal digits read in base 10, leading zeros included (manager.py:84). */
  function DecimalValue(ds: string): nat
    requires forall k :: 0 <= k < |ds| ==> IsDigit(ds[k])
  {
    if ds == [] then 0
    else
      var last := ds[|ds| - 1];
      assert IsDigit(last);
      DecimalValue(ds[..|ds| - 1]) * 10 + (last as int - '0' as int)
  }

  /** A leading zero does not change the value: `01-x.py` has prefix 1. */
  lemma {:induction false} LeadingZero(ds: string)
    requires forall k :: 0 <= k < |ds| ==> IsDigit(ds[k])
    ensures DecimalValue("0" + ds) == DecimalValue(ds)
  {
    if ds != [] {
      var init := ds[..|ds| - 1];
      assert ("0" + ds)[..|ds|] == "0" + init;
      LeadingZero(init);
    }
  }

  /** The regex `^\s*(\d+)[_\-].*` matches `name` with `\s*` taking `name[..i]` and the group
      being `name[i..j]`. */
  predicate MatchesAt(name: string, i: int, j: int) {
    && 0 <= i < j < |name|
    && (forall k :: 0 <= k < i ==> IsSpace(name[k]))
    && (forall k :: i <= k < j ==> IsDigit(name[k]))
    && (name[j] == '_' || name[j] == '-')
  }

  /** The numeric prefix of a name (manager.py:80): after optional leading whitespace, a run of
      digits followed by `_` or `-`, read as a number; `None` when the name does not start that way. */
  function NumericPrefix(name: string): Option<nat> {
    var i := SpaceRun(name);
    var j := i + DigitRun(name[i..]);
    if i < j < |name| && (name[j] == '_' || name[j] == '-') then Some(DecimalValue(name[i..j]))
    else None
  }

  /** A prefix is reported only where the pattern matches, and it is the value of the group. */
  lemma NumericPrefixSound(name: string)
    requires NumericPrefix(name).Some?
    ensures exists i, j :: MatchesAt(name, i, j) && NumericPrefix(name).value == DecimalValue(name[i..j])
  {
    var i := SpaceRun(name);
    var j := i + DigitRun(name[i..]);
    assert MatchesAt(name, i, j);
  }

  /** Every way the pattern matches gives the prefix `NumericPrefix` reports: with
      `NumericPrefixSound`, the name matches exactly when `NumericPrefix` is `Some`. */
  lemma NumericPrefixComplete(name: string, i: int, j: int)
    requires MatchesAt(name, i, j)
    ensures NumericPrefix(name) == Some(DecimalValue(name[i..j]))
  {
    var n := SpaceRun(name);
    assert !IsSpace(name[i]);
    assert n == i;
    var rest := name[i..];
    assert forall k :: 0 <= k < j - i ==> rest[k] == name[i + k];
    assert DigitRun(rest) == j - i;
  }

  predicate IsNumbered(e: Entry) {
    NumericPrefix(e.name).Some?
  }

  /** The tuple appended for a numbered candidate: its prefix and its mtime, 0 when unreadable. */
  function Rank(e: Entry): Ranked
    requires IsNumbered(e)
  {
    Ranked(Key(NumericPrefix(e.name).value, e.mtime.GetOr(0)), e.name)
  }

  /** The `numbered` list the loop of manager.py:79-86 builds: one tuple per numbered candidate,
      in candidate order. */
  function Numbered(c: seq<Entry>): (r: seq<Ranked>) {
    if c == [] then []
    else
      var e := c[|c| - 1];
      Numbered(c[..|c| - 1]) + (if IsNumbered(e) then [Rank(e)] else [])
  }

  /** Every numbered candidate has its tuple in `numbered`. */
  lemma {:induction false} NumberedComplete(c: seq<Entry>, k: nat)
    requires k < |c| && IsNumbered(c[k])
    ensures Rank(c[k]) in Numbered(c)
  {
    if k < |c| - 1 {
      var init := c[..|c| - 1];
      assert init[k] == c[k];
      NumberedComplete(init, k);
    }
  }

  /** Every tuple of `numbered` is that of a numbered candidate. */
  lemma {:induction false} NumberedSound(c: seq<Entry>, x: Ranked)
    requires x in Numbered(c)
    ensures exists k :: 0 <= k < |c| && IsNumbered(c[k]) && x == Rank(c[k])
  {
    var init := c[..|c| - 1];
    if x in Numbered(init) {
      NumberedSound(init, x);
      var k :| 0 <= k < |init| && IsNumbered(init[k]) && x == Rank(init[k]);
      assert init[k] == c[k];
    } else {
      assert x == Rank(c[|c| - 1]);
    }
  }

  /** `numbered` keeps listing order: the tuples of a listing are those of its parts, in turn. */
  lemma {:induction false} NumberedAppend(a: seq<Entry>, b: seq<Entry>)
    ensures Numbered(a + b) == Numbered(a) + Numbered(b)
  {
    if b != [] {
      var init := b[..|b| - 1];
      assert (a + b)[..|a + b| - 1] == a + init;
      NumberedAppend(a, init);
    } else {
      assert a + b == a;
    }
  }

  /** Every candidate's mtime was read without error. */
  predicate AllReadable(c: seq<Entry>) {
    forall k :: 0 <= k < |c| ==> c[k].mtime.Some?
  }

  /** `full_paths` with `getmtime` as their sort key, position by position. */
  function ByMtime(c: seq<Entry>): seq<Ranked>
    requires AllReadable(c)
  {
    seq(|c|, k requires 0 <= k < |c| => Ranked(Key(0, c[k].mtime.value), c[k].name))
  }

  /** A hint is used when it is truthy: given and not empty. */
  predicate HintGiven(hint: Option<string>) {
    hint.Some? && hint.value != ""
  }

  /** The selection policy as a value: no directory or no candidate gives nothing; otherwise the
      first greatest `(prefix, mtime)` among numbered candidates; otherwise an existing hint;
      otherwise the first newest candidate, or the error when some mtime cannot be read. */
  function Locate(isDir: bool, listing: seq<Entry>, hint: Option<string>, hintExists: bool): Located {
    var c := Candidates(listing);
    if !isDir || c == [] then NoScript
    else
      var numbered := Numbered(c);
      if numbered != [] then Found(numbered[FirstMax(numbered)].path)
      else if HintGiven(hint) && hintExists then Found(hint.value)
      else if !AllReadable(c) then StatError
      else Found(c[FirstMax(ByMtime(c))].name)
  }

  /** `numbered[0]` / `full_paths[0]` after `sort(..., reverse=True)`: only the head of the sorted
      list is read, so the sort is modelled by a left-to-right scan for it. */
  method SortedHead(rs: seq<Ranked>) returns (best: nat)
    requires |rs| > 0
    ensures IsFirstMax(rs, best)
  {
    best := 0;
    for i := 1 to |rs|
      invariant best < i
      invariant forall j :: 0 <= j < i ==> !KeyLess(rs[best].key, rs[j].key)
      invariant forall j :: 0 <= j < best ==> KeyLess(rs[j].key, rs[best].key)
    {
      if KeyLess(rs[best].key, rs[i].key) {
        best := i;
      }
    }
  }

  /** The loop of manager.py:78-86: append a tuple for every candidate whose name has a numeric
      prefix, with mtime 0 when `getmtime` raises. */
  method CollectNumbered(candidates: seq<Entry>) returns (numbered: seq<Ranked>)
    ensures numbered == Numbered(candidates)
  {
    numbered := [];
    for i := 0 to |candidates|
      invariant numbered == Numbered(candidates[..i])
    {
      var fn := candidates[i];
      assert candidates[..i + 1][..i] == candidates[..i];
      match NumericPrefix(fn.name)
      case Some(_) =>
        numbered := numbered + [Rank(fn)];
      case None =>
    }
    assert candidates[..|candidates|] == candidates;
  }

  /** The key pass of the mtime sort (manager.py:100): every key is computed before anything
      is ordered, so one unreadable mtime raises, wherever it stands. */
  method ReadAllMtimes(candidates: seq<Entry>) returns (ok: bool)
    ensures ok <==> AllReadable(candidates)
  {
    for i := 0 to |candidates|
      invariant AllReadable(candidates[..i])
    {
      if candidates[i].mtime.None? {
        return false;
      }
      assert candidates[..i + 1][i] == candidates[i];
    }
    assert candidates[..|candidates|] == candidates;
    return true;
  }

  /** `find_latest_script(dir_path, name_hint)`. */
  method FindLatestScript(isDir: bool, listing: seq<Entry>, hint: Option<string>, hintExists: bool)
    returns (r: Located)
    ensures r == Locate(isDir, listing, hint, hintExists)
  {
    if !isDir {
      return NoScript;
    }
    var candidates := Candidates(listing);
    if candidates == [] {
      return NoScript;
    }
    var numbered := CollectNumbered(candidates);
    if numbered != [] {
      var best := SortedHead(numbered);
      FirstMaxUnique(numbered, best, FirstMax(numbered));
      return Found(numbered[best].path);
    }
    if HintGiven(hint) && hintExists {
      return Found(hint.value);
    }
    var readable := ReadAllMtimes(candidates);
    if !readable {
      return StatError;
    }
    var fullPaths := ByMtime(candidates);
    var best := SortedHead(fullPaths);
    FirstMaxUnique(fullPaths, best, FirstMax(fullPaths));
    return Found(candidates[best].name);
  }

  /** Nothing is found exactly when the path is not a directory or lists no `.py` file. */
  lemma LocateNoScript(isDir: bool, listing: seq<Entry>, hint: Option<string>, hintExists: bool)
    ensures Locate(isDir, listing, hint, hintExists) == NoScript <==>
              !isDir || forall k :: 0 <= k < |listing| ==> !EndsWithPy(listing[k].name)
  {
    var c := Candidates(listing);
    CandidatesMembers(listing);
    if c != [] {
      assert c[0] in c;
    }
    if exists k :: 0 <= k < |listing| && EndsWithPy(listing[k].name) {
      var k :| 0 <= k < |listing| && EndsWithPy(listing[k].name);
      assert listing[k] in c;
    }
  }

  /** A listing without numbered candidates yields an empty `numbered`. */
  lemma {:induction false} NumberedNone(c: seq<Entry>)
    requires forall k :: 0 <= k < |c| ==> !IsNumbered(c[k])
    ensures Numbered(c) == []
  {
    if c != [] {
      NumberedNone(c[..|c| - 1]);
    }
  }

  /** With a numbered candidate, the result is the head of `numbered` (a greatest key, first in
      listing order), whatever the hint. */
  lemma LocateNumberedHead(isDir: bool, listing: seq<Entry>, hint: Option<string>, hintExists: bool)
    requires isDir && Numbered(Candidates(listing)) != []
    ensures Locate(isDir, listing, hint, hintExists) == Found(Numbered(Candidates(listing))[FirstMax(Numbered(Candidates(listing)))].path)
  {
  }

  /** The head of `numbered` is the tuple of a numbered candidate whose key is greatest among all
      numbered candidates. */
  lemma NumberedHeadBest(c: seq<Entry>)
    requires Numbered(c) != []
    ensures exists i :: 0 <= i < |c| && IsNumbered(c[i]) &&
              Numbered(c)[FirstMax(Numbered(c))] == Rank(c[i]) &&
              forall j :: 0 <= j < |c| && IsNumbered(c[j]) ==> !KeyLess(Rank(c[i]).key, Rank(c[j]).key)
  {
    var numbered := Numbered(c);
    var m := FirstMax(numbered);
    NumberedSound(c, numbered[m]);
    var i :| 0 <= i < |c| && IsNumbered(c[i]) && numbered[m] == Rank(c[i]);
    forall j | 0 <= j < |c| && IsNumbered(c[j])
      ensures !KeyLess(Rank(c[i]).key, Rank(c[j]).key)
    {
      NumberedHeadBeats(c, j);
    }
  }

  /** No numbered candidate has a key greater than the head of `numbered`. */
  lemma NumberedHeadBeats(c: seq<Entry>, j: nat)
    requires Numbered(c) != [] && j < |c| && IsNumbered(c[j])
    ensures !KeyLess(Numbered(c)[FirstMax(Numbered(c))].key, Rank(c[j]).key)
  {
    var numbered := Numbered(c);
    NumberedComplete(c, j);
    var q :| 0 <= q < |numbered| && numbered[q] == Rank(c[j]);
    assert IsFirstMax(numbered, FirstMax(numbered));
  }

  /** With a numbered candidate, the result is a numbered candidate whose `(prefix, mtime)`, with an
      unreadable mtime as 0, is greatest; among equal keys it is the first in listing order (the head
      of `numbered`, which keeps listing order); and the hint plays no part. */
  lemma LocateNumbered(isDir: bool, listing: seq<Entry>, hint: Option<string>, hintExists: bool,
                       otherHint: Option<string>, otherExists: bool, k: nat)
    requires isDir
    requires k < |Candidates(listing)| && IsNumbered(Candidates(listing)[k])
    ensures Locate(isDir, listing, otherHint, otherExists) == Locate(isDir, listing, hint, hintExists)
    ensures exists i :: IsFirstMax(Numbered(Candidates(listing)), i) &&
              Locate(isDir, listing, hint, hintExists) == Found(Numbered(Candidates(listing))[i].path)
    ensures var c := Candidates(listing);
            exists i :: 0 <= i < |c| && IsNumbered(c[i]) &&
              Locate(isDir, listing, hint, hintExists) == Found(c[i].name) &&
              forall j :: 0 <= j < |c| && IsNumbered(c[j]) ==> !KeyLess(Rank(c[i]).key, Rank(c[j]).key)
  {
    var c := Candidates(listing);
    NumberedComplete(c, k);
    LocateNumberedHead(isDir, listing, hint, hintExists);
    LocateNumberedHead(isDir, listing, otherHint, otherExists);
    NumberedHeadBest(c);
  }

  /** Without numbered candidates: an existing hint wins; otherwise the first candidate with the
      greatest mtime, or the error when some candidate's mtime cannot be read. */
  lemma LocateUnnumbered(isDir: bool, listing: seq<Entry>, hint: Option<string>, hintExists: bool)
    requires isDir && Candidates(listing) != []
    requires forall k :: 0 <= k < |Candidates(listing)| ==> !IsNumbered(Candidates(listing)[k])
    ensures HintGiven(hint) && hintExists ==> Locate(isDir, listing, hint, hintExists) == Found(hint.value)
    ensures !(HintGiven(hint) && hintExists) && !AllReadable(Candidates(listing)) ==>
              Locate(isDir, listing, hint, hintExists) == StatError
  {
    NumberedNone(Candidates(listing));
    LocateFallback(isDir, listing, hint, hintExists);
  }

  /** Without numbered candidates and without a usable hint, and with every mtime readable, the
      result is a candidate with the greatest mtime, the first one in listing order among equals. */
  lemma LocateNewest(isDir: bool, listing: seq<Entry>, hint: Option<string>, hintExists: bool)
    requires isDir && Candidates(listing) != []
    requires forall k :: 0 <= k < |Candidates(listing)| ==> !IsNumbered(Candidates(listing)[k])
    requires !(HintGiven(hint) && hintExists) && AllReadable(Candidates(listing))
    ensures var c := Candidates(listing);
            exists i :: 0 <= i < |c| && Locate(isDir, listing, hint, hintExists) == Found(c[i].name) &&
              (forall j :: 0 <= j < |c| ==> c[j].mtime.value <= c[i].mtime.value) &&
              (forall j :: 0 <= j < i ==> c[j].mtime.value < c[i].mtime.value)
  {
    var c := Candidates(listing);
    NumberedNone(c);
    LocateFallback(isDir, listing, hint, hintExists);
    var byMtime := ByMtime(c);
    var i := FirstMax(byMtime);
    assert Locate(isDir, listing, hint, hintExists) == Found(c[i].name);
    forall j | 0 <= j < |c| ensures c[j].mtime.value <= c[i].mtime.value {
      assert !KeyLess(byMtime[i].key, byMtime[j].key);
    }
    forall j | 0 <= j < i ensures c[j].mtime.value < c[i].mtime.value {
      assert KeyLess(byMtime[j].key, byMtime[i].key);
    }
  }

  /** The branches of `Locate` that follow an empty `numbered`. */
  lemma LocateFallback(isDir: bool, listing: seq<Entry>, hint: Option<string>, hintExists: bool)
    requires isDir && Candidates(listing) != [] && Numbered(Candidates(listing)) == []
    ensures Locate(isDir, listing, hint, hintExists) ==
              if HintGiven(hint) && hintExists then Found(hint.value)
              else if !AllReadable(Candidates(listing)) then StatError
              else Found(Candidates(listing)[FirstMax(ByMtime(Candidates(listing)))].name)
  {
  }

  /** A listing of `.py` names is its own candidate list. */
  lemma {:induction false} CandidatesAllPy(listing: seq<Entry>)
    requires forall k :: 0 <= k < |listing| ==> EndsWithPy(listing[k].name)
    ensures Candidates(listing) == listing
  {
    if listing != [] {
      CandidatesAllPy(listing[1..]);
      assert [listing[0]] + listing[1..] == listing;
    }
  }

  /** A name whose first character is neither whitespace nor a digit has no numeric prefix. */
  lemma NoPrefixWhenLetter(name: string)
    requires |name| > 0 && !IsSpace(name[0]) && !IsDigit(name[0])
    ensures NumericPrefix(name) == None
  {
    assert SpaceRun(name) == 0;
    assert DigitRun(name[0..]) == 0;
  }

  /** `numbered` grows by one tuple for each numbered entry appended to the listing. */
  lemma NumberedSnoc(c: seq<Entry>, e: Entry)
    ensures Numbered(c + [e]) == Numbered(c) + (if IsNumbered(e) then [Rank(e)] else [])
  {
    assert (c + [e])[..|c|] == c;
  }

  lemma PrefixOfTen()
    ensures NumericPrefix("10_b.py") == Some(10)
  {
    TwoDigitPrefix("10_b.py");
  }

  /** A name made of two digits, `_` or `-`, and more has those digits, read in base 10, as its
      prefix. */
  lemma TwoDigitPrefix(name: string)
    requires |name| >= 3 && IsDigit(name[0]) && IsDigit(name[1]) && (name[2] == '_' || name[2] == '-')
    ensures NumericPrefix(name) == Some(10 * (name[0] as int - '0' as int) + (name[1] as int - '0' as int))
  {
    assert MatchesAt(name, 0, 2);
    NumericPrefixComplete(name, 0, 2);
    assert name[..2][..1] == name[..1];
    assert DecimalValue(name[..1]) == DecimalValue([]) * 10 + (name[0] as int - '0' as int);
  }

  /** A name made of one digit, `_` or `-`, and more has that digit as its prefix. */
  lemma SingleDigitPrefix(name: string)
    requires |name| >= 2 && IsDigit(name[0]) && (name[1] == '_' || name[1] == '-')
    ensures NumericPrefix(name) == Some(name[0] as int - '0' as int)
  {
    assert MatchesAt(name, 0, 1);
    NumericPrefixComplete(name, 0, 1);
    assert DecimalValue(name[..1]) == DecimalValue([]) * 10 + (name[0] as int - '0' as int);
  }

  /** A candidate whose numeric prefix is strictly greater than every other candidate's is chosen,
      whatever the mtimes and the hint. */
  lemma StrictlyGreatestPrefixWins(isDir: bool, listing: seq<Entry>, hint: Option<string>, hintExists: bool, k: nat)
    requires isDir && k < |Candidates(listing)| && IsNumbered(Candidates(listing)[k])
    requires var c := Candidates(listing);
             forall j :: 0 <= j < |c| && j != k && IsNumbered(c[j]) ==>
               NumericPrefix(c[j].name).value < NumericPrefix(c[k].name).value
    ensures Locate(isDir, listing, hint, hintExists) == Found(Candidates(listing)[k].name)
  {
    var c := Candidates(listing);
    LocateNumbered(isDir, listing, hint, hintExists, hint, hintExists, k);
    var i :| 0 <= i < |c| && IsNumbered(c[i]) &&
              Locate(isDir, listing, hint, hintExists) == Found(c[i].name) &&
              forall j :: 0 <= j < |c| && IsNumbered(c[j]) ==> !KeyLess(Rank(c[i]).key, Rank(c[j]).key);
    assert !KeyLess(Rank(c[i]).key, Rank(c[k]).key);
  }

  /** The largest numeric prefix wins, compared as numbers and whatever the hint and the mtimes:
      `9_a.py` and `10_b.py` give `10_b.py`. */
  lemma LargestPrefixWins(m1: Option<int>, m2: Option<int>, hint: Option<string>, hintExists: bool)
    ensures Locate(true, [Entry("9_a.py", m1), Entry("10_b.py", m2)], hint, hintExists) == Found("10_b.py")
  {
    SingleDigitPrefix("9_a.py");
    PrefixOfTen();
    assert "9_a.py"[3..] == ".py" && "10_b.py"[4..] == ".py";
    GreaterPrefixWins(Entry("9_a.py", m1), Entry("10_b.py", m2), hint, hintExists);
  }

  /** Of two numbered `.py` files the one with the greater prefix is returned. */
  lemma GreaterPrefixWins(a: Entry, b: Entry, hint: Option<string>, hintExists: bool)
    requires EndsWithPy(a.name) && EndsWithPy(b.name) && IsNumbered(a) && IsNumbered(b)
    requires NumericPrefix(a.name).value < NumericPrefix(b.name).value
    ensures Locate(true, [a, b], hint, hintExists) == Found(b.name)
  {
    CandidatesAllPy([a, b]);
    TwoNumbered(a, b);
    assert IsFirstMax([Rank(a), Rank(b)], 1);
    FirstMaxUnique([Rank(a), Rank(b)], 1, FirstMax([Rank(a), Rank(b)]));
    LocateNumberedHead(true, [a, b], hint, hintExists);
  }

  /** Without numbered candidates, an existing hint is returned: `a.py`, `b.py` with hint `b.py`. */
  lemma HintWithoutNumbers(m1: Option<int>, m2: Option<int>)
    ensures Locate(true, [Entry("a.py", m1), Entry("b.py", m2)], Some("b.py"), true) == Found("b.py")
  {
    var c := [Entry("a.py", m1), Entry("b.py", m2)];
    assert "a.py"[1..] == ".py" && "b.py"[1..] == ".py";
    CandidatesAllPy(c);
    NoPrefixWhenLetter("a.py");
    NoPrefixWhenLetter("b.py");
    LocateUnnumbered(true, c, Some("b.py"), true);
  }

  /** Without numbered candidates or hint, the newest file is returned: `x.py` (mtime 5) and
      `y.py` (mtime 9) give `y.py`. */
  lemma NewestWithoutNumbers()
    ensures Locate(true, [Entry("x.py", Some(5)), Entry("y.py", Some(9))], None, false) == Found("y.py")
  {
    var c := [Entry("x.py", Some(5)), Entry("y.py", Some(9))];
    assert "x.py"[1..] == ".py" && "y.py"[1..] == ".py";
    CandidatesAllPy(c);
    NoPrefixWhenLetter("x.py");
    NoPrefixWhenLetter("y.py");
    NumberedNone(c);
    LocateFallback(true, c, None, false);
    var byMtime := ByMtime(c);
    assert IsFirstMax(byMtime, 1);
    FirstMaxUnique(byMtime, 1, FirstMax(byMtime));
  }

  /** A leading zero is read as a number: `01-x.py` has prefix 1, like `1_y.py`. */
  lemma PrefixesOfTie()
    ensures NumericPrefix("01-x.py") == Some(1) == NumericPrefix("1_y.py")
  {
    TwoDigitPrefix("01-x.py");
    SingleDigitPrefix("1_y.py");
  }

  /** Equal keys keep listing order: of two numbered `.py` files with the same prefix and mtime
      the first listed is returned, and an entry that is not `.py` is never a candidate, whatever
      the hint. */
  lemma TieKeepsListingOrder(a: Entry, b: Entry, other: Entry, hint: Option<string>, hintExists: bool)
    requires EndsWithPy(a.name) && EndsWithPy(b.name) && !EndsWithPy(other.name)
    requires IsNumbered(a) && IsNumbered(b) && Rank(a).key == Rank(b).key
    ensures Locate(true, [a, b, other], hint, hintExists) == Found(a.name)
  {
    TwoCandidates(a, b, other);
    TwoNumbered(a, b);
    EqualKeysFirst(Rank(a), Rank(b));
    LocateNumberedHead(true, [a, b, other], hint, hintExists);
  }

  lemma TwoCandidates(a: Entry, b: Entry, other: Entry)
    requires EndsWithPy(a.name) && EndsWithPy(b.name) && !EndsWithPy(other.name)
    ensures Candidates([a, b, other]) == [a, b]
  {
    assert [a, b, other] == [a, b] + [other];
    assert Candidates([other]) == [];
    CandidatesAllPy([a, b]);
    CandidatesAppend([a, b], [other]);
  }

  lemma TwoNumbered(a: Entry, b: Entry)
    requires IsNumbered(a) && IsNumbered(b)
    ensures Numbered([a, b]) == [Rank(a), Rank(b)]
  {
    NumberedSnoc([], a);
    NumberedSnoc([a], b);
    assert [] + [a] == [a] && [a] + [b] == [a, b];
  }

  /** Of two equal keys the first is the head of the sorted list. */
  lemma EqualKeysFirst(x: Ranked, y: Ranked)
    requires x.key == y.key
    ensures FirstMax([x, y]) == 0
  {
    assert IsFirstMax([x, y], 0);
    FirstMaxUnique([x, y], 0, FirstMax([x, y]));
  }

  /** The candidate list of a listing is that of its parts, in turn. */
  lemma {:induction false} CandidatesAppend(a: seq<Entry>, b: seq<Entry>)
    ensures Candidates(a + b) == Candidates(a) + Candidates(b)
  {
    if a != [] {
      assert (a + b)[1..] == a[1..] + b;
      CandidatesAppend(a[1..], b);
    } else {
      assert a + b == b;
    }
  }
}

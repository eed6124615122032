/** The hash bookkeeping shared by the GUI watch loop (manager.py:297-306) and the CLI scan
    (manager.py:351-360): a map from target path to the digest last seen (`None` for a file seen
    missing), and the per-target visit that compares the current digest with it. A scan visits the
    listed targets in order, hashing each one as it is reached: `hashes[i]` is what `file_hash`
    answers for `ts[i]` at that moment. */
module Watch {
  import opened Common

  type Hashes = map<string, Option<Digest>>

  /** The stored digest of a target, `None` for a target never stored. */
  function Get(m: Hashes, t: string): Option<Digest> {
    if t in m then m[t] else None
  }

  /** What one visit finds: the file is gone, its digest differs from the stored one, or neither. */
  datatype Visit = Vanished | Changed | Unchanged

  function Classify(m: Hashes, t: string, cur: Option<Digest>): (v: Visit)
    ensures v == Vanished <==> cur.None?
    ensures v == Changed <==> cur.Some? && Get(m, t) != cur
  {
    if cur.None? then Vanished
    else if Get(m, t) != cur then Changed
    else Unchanged
  }

  /** The map after one visit: a missing file is stored as `None`, a changed digest is stored, an
      unchanged one leaves the map as it was. */
  function Record(m: Hashes, t: string, cur: Option<Digest>): (r: Hashes)
    ensures t in r && Get(r, t) == cur
    ensures forall k :: k in r <==> k in m || k == t
    ensures forall k :: k != t && k in m ==> r[k] == m[k]
  {
    match Classify(m, t, cur)
    case Vanished => m[t := None]
    case Changed => m[t := cur]
    case Unchanged => m
  }

  /** The map after visiting `ts` in order. */
  function Scan(m: Hashes, ts: seq<string>, hashes: seq<Option<Digest>>): Hashes
    requires |hashes| == |ts|
  {
    if ts == [] then m
    else Record(Scan(m, ts[..|ts| - 1], hashes[..|ts| - 1]), ts[|ts| - 1], hashes[|ts| - 1])
  }

  /** The targets whose visit found a change, in visit order: each is compared with the map as the
      earlier visits of the same scan left it. */
  function Triggers(m: Hashes, ts: seq<string>, hashes: seq<Option<Digest>>): seq<string>
    requires |hashes| == |ts|
  {
    if ts == [] then []
    else
      var n := |ts| - 1;
      Triggers(m, ts[..n], hashes[..n])
      + (if Classify(Scan(m, ts[..n], hashes[..n]), ts[n], hashes[n]) == Changed then [ts[n]] else [])
  }

  /** No file changes while one scan runs: every visit of the same path reads the same digest. */
  predicate Snapshot(ts: seq<string>, hashes: seq<Option<Digest>>, h: string -> Option<Digest>) {
    |hashes| == |ts| && forall i :: 0 <= i < |ts| ==> hashes[i] == h(ts[i])
  }

  /** A target changed with respect to the stored map: it exists now and its digest is not the one
      stored (a target stored as `None`, or never stored, counts as changed once it exists). */
  predicate ChangedSince(m: Hashes, t: string, h: string -> Option<Digest>) {
    h(t).Some? && Get(m, t) != h(t)
  }

  lemma SnapshotPrefix(ts: seq<string>, hashes: seq<Option<Digest>>, h: string -> Option<Digest>, n: nat)
    requires Snapshot(ts, hashes, h) && n <= |ts|
    ensures Snapshot(ts[..n], hashes[..n], h)
  {
    assert forall i :: 0 <= i < n ==> ts[..n][i] == ts[i] && hashes[..n][i] == hashes[i];
  }

  /** A scan touches only the listed keys: it adds each listed target and keeps every other entry. */
  lemma {:induction false} ScanFrame(m: Hashes, ts: seq<string>, hashes: seq<Option<Digest>>)
    requires |hashes| == |ts|
    ensures forall k :: k in Scan(m, ts, hashes) <==> k in m || k in ts
    ensures forall k :: k !in ts && k in m ==> Scan(m, ts, hashes)[k] == m[k]
  {
    if ts != [] {
      var n := |ts| - 1;
      ScanFrame(m, ts[..n], hashes[..n]);
      assert ts == ts[..n] + [ts[n]];
      assert forall k :: k in ts <==> k in ts[..n] || k == ts[n];
    }
  }

  /** Without changes during the scan, every listed target ends up stored with its current digest,
      `None` for a missing file. */
  lemma {:induction false} ScanRecords(m: Hashes, ts: seq<string>, hashes: seq<Option<Digest>>,
                                       h: string -> Option<Digest>)
    requires Snapshot(ts, hashes, h)
    ensures forall t :: t in ts ==> t in Scan(m, ts, hashes) && Scan(m, ts, hashes)[t] == h(t)
  {
    if ts != [] {
      var n := |ts| - 1;
      SnapshotPrefix(ts, hashes, h, n);
      ScanRecords(m, ts[..n], hashes[..n], h);
      assert ts == ts[..n] + [ts[n]];
      assert forall t :: t in ts <==> t in ts[..n] || t == ts[n];
    }
  }

  /** Every trigger is a listed target. */
  lemma {:induction false} TriggersListed(m: Hashes, ts: seq<string>, hashes: seq<Option<Digest>>)
    requires |hashes| == |ts|
    ensures forall x :: x in Triggers(m, ts, hashes) ==> x in ts
  {
    if ts != [] {
      var n := |ts| - 1;
      TriggersListed(m, ts[..n], hashes[..n]);
      assert ts == ts[..n] + [ts[n]];
    }
  }

  /** Without changes during the scan, the scan triggers exactly the listed targets that changed
      since the map was stored: a missing file never triggers, a file stored as `None` or never
      stored triggers once it exists, and no target triggers twice, duplicates in the list included. */
  lemma {:induction false} TriggersExactly(m: Hashes, ts: seq<string>, hashes: seq<Option<Digest>>,
                                           h: string -> Option<Digest>)
    requires Snapshot(ts, hashes, h)
    ensures forall x :: x in Triggers(m, ts, hashes) <==> x in ts && ChangedSince(m, x, h)
    ensures forall i, j :: 0 <= i < j < |Triggers(m, ts, hashes)| ==>
              Triggers(m, ts, hashes)[i] != Triggers(m, ts, hashes)[j]
  {
    if ts != [] {
      var n := |ts| - 1;
      var init, t := ts[..n], ts[n];
      SnapshotPrefix(ts, hashes, h, n);
      TriggersExactly(m, init, hashes[..n], h);
      TriggersListed(m, init, hashes[..n]);
      var before := Scan(m, init, hashes[..n]);
      if t in init {
        ScanRecords(m, init, hashes[..n], h);
        assert Classify(before, t, hashes[n]) != Changed;
      } else {
        ScanFrame(m, init, hashes[..n]);
        assert Get(before, t) == Get(m, t);
      }
      assert ts == init + [t];
      assert forall x :: x in ts <==> x in init || x == t;
    }
  }

  /** The digests a watch starts from (manager.py:283, 340): every target, and no other path,
      mapped to what `file_hash` answers for it. */
  function StartHashes(ts: seq<string>, h: string -> Option<Digest>): Hashes {
    map t | t in ts :: h(t)
  }

  /** The changed listed targets, as a set. */
  function ChangedTargets(m: Hashes, ts: seq<string>, h: string -> Option<Digest>): set<string> {
    set t | t in ts && ChangedSince(m, t, h)
  }

  /** A list without repetitions has as many elements as its set. */
  lemma {:induction false} DistinctCard(s: seq<string>)
    requires forall i, j :: 0 <= i < j < |s| ==> s[i] != s[j]
    ensures |set x | x in s| == |s|
  {
    if s != [] {
      var n := |s| - 1;
      DistinctCard(s[..n]);
      assert s == s[..n] + [s[n]];
      assert s[n] !in s[..n];
      assert (set x | x in s) == (set x | x in s[..n]) + {s[n]};
    }
  }

  /** Without changes during the scan, there are as many triggers as changed listed targets. */
  lemma TriggerCount(m: Hashes, ts: seq<string>, hashes: seq<Option<Digest>>, h: string -> Option<Digest>)
    requires Snapshot(ts, hashes, h)
    ensures |Triggers(m, ts, hashes)| == |ChangedTargets(m, ts, h)|
  {
    var r := Triggers(m, ts, hashes);
    TriggersExactly(m, ts, hashes, h);
    DistinctCard(r);
    assert (set x | x in r) == ChangedTargets(m, ts, h);
  }

  /** A scan right after the start, with no file changed since, triggers nothing; nor does a second
      scan over files that did not change after the first. */
  lemma QuietWhenUnchanged(ts: seq<string>, hashes: seq<Option<Digest>>, h: string -> Option<Digest>,
                           m: Hashes)
    requires Snapshot(ts, hashes, h)
    ensures Triggers(StartHashes(ts, h), ts, hashes) == []
    ensures Triggers(Scan(m, ts, hashes), ts, hashes) == []
  {
    TriggerCount(StartHashes(ts, h), ts, hashes, h);
    assert ChangedTargets(StartHashes(ts, h), ts, h) == {};
    ScanRecords(m, ts, hashes, h);
    TriggerCount(Scan(m, ts, hashes), ts, hashes, h);
    assert ChangedTargets(Scan(m, ts, hashes), ts, h) == {};
  }
}

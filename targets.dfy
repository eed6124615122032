/** The target field of the GUI: a `;`-separated list of paths (manager.py:172-184). */
module Targets {
  import opened Text

  /** The separator `select_target` joins with and `get_targets` splits on. */
  const SEPARATOR: char := ';'

  /** What `get_targets` can return for one target: non-empty, no surrounding whitespace, no separator. */
  predicate IsTarget(p: string) {
    p != [] && Stripped(p) && SEPARATOR !in p
  }

  /** The pieces that are not blank, each stripped, in order (manager.py:183). */
  function CleanParts(parts: seq<string>): seq<string> {
    if parts == [] then []
    else
      var p := Strip(parts[0]);
      (if p != [] then [p] else []) + CleanParts(parts[1..])
  }

  /** Pieces without separators give targets only. */
  lemma {:induction false} CleanPartsAreTargets(parts: seq<string>)
    requires forall i :: 0 <= i < |parts| ==> SEPARATOR !in parts[i]
    ensures forall i :: 0 <= i < |CleanParts(parts)| ==> IsTarget(CleanParts(parts)[i])
  {
    if parts != [] {
      var p := Strip(parts[0]);
      StripChars(parts[0]);
      CleanPartsAreTargets(parts[1..]);
      var head := if p != [] then [p] else [];
      var rest := CleanParts(parts[1..]);
      assert CleanParts(parts) == head + rest;
      forall i | 0 <= i < |head + rest| ensures IsTarget((head + rest)[i]) {
        if i >= |head| {
          assert (head + rest)[i] == rest[i - |head|];
        }
      }
    }
  }

  /** No piece survives exactly when every piece is blank. */
  lemma {:induction false} CleanPartsEmpty(parts: seq<string>)
    ensures CleanParts(parts) == [] <==> forall i :: 0 <= i < |parts| ==> Strip(parts[i]) == []
  {
    if parts != [] {
      CleanPartsEmpty(parts[1..]);
      assert forall i :: 0 < i < |parts| ==> parts[i] == parts[1..][i - 1];
    }
  }

  /** `get_targets`: strip the field, give nothing for a blank field, otherwise split on `;` and keep the
      non-blank pieces, stripped. */
  function GetTargets(raw: string): seq<string> {
    var stripped := Strip(raw);
    if stripped == [] then [] else CleanParts(Split(stripped, SEPARATOR))
  }

  /** Everything `get_targets` returns is a target: non-empty, stripped, free of separators. */
  lemma GetTargetsAreTargets(raw: string)
    ensures forall i :: 0 <= i < |GetTargets(raw)| ==> IsTarget(GetTargets(raw)[i])
  {
    var stripped := Strip(raw);
    if stripped != [] {
      CleanPartsAreTargets(Split(stripped, SEPARATOR));
    }
  }

  /** A field of whitespace and separators only yields no targets. */
  lemma BlankFieldNoTargets(raw: string)
    requires forall k :: 0 <= k < |raw| ==> IsSpace(raw[k]) || raw[k] == SEPARATOR
    ensures GetTargets(raw) == []
  {
    var stripped := Strip(raw);
    if stripped != [] {
      var parts := Split(stripped, SEPARATOR);
      JoinSplit(stripped, SEPARATOR);
      StripChars(raw);
      forall i | 0 <= i < |parts| ensures Strip(parts[i]) == [] {
        forall k | 0 <= k < |parts[i]| ensures IsSpace(parts[i][k]) {
          JoinContains(parts, SEPARATOR, i, parts[i][k]);
          assert parts[i][k] in raw;
        }
        StripEmpty(parts[i]);
      }
      CleanPartsEmpty(parts);
    }
  }

  /** A character that is neither whitespace nor a separator makes the list non-empty. */
  lemma VisibleCharacterGivesTarget(raw: string, k: nat)
    requires k < |raw| && !IsSpace(raw[k]) && raw[k] != SEPARATOR
    ensures GetTargets(raw) != []
  {
    var c := raw[k];
    var stripped := Strip(raw);
    StripKeeps(raw, k);
    assert c in stripped;
    var parts := Split(stripped, SEPARATOR);
    JoinSplit(stripped, SEPARATOR);
    JoinOnlyPieces(parts, SEPARATOR, c);
    var i :| 0 <= i < |parts| && c in parts[i];
    var j :| 0 <= j < |parts[i]| && parts[i][j] == c;
    StripKeeps(parts[i], j);
    assert Strip(parts[i]) != [];
    CleanPartsEmpty(parts);
    assert GetTargets(raw) == CleanParts(parts);
  }

  /** The list is empty exactly when the field holds nothing but whitespace and separators. */
  lemma GetTargetsEmpty(raw: string)
    ensures GetTargets(raw) == [] <==> forall k :: 0 <= k < |raw| ==> IsSpace(raw[k]) || raw[k] == SEPARATOR
  {
    if forall k :: 0 <= k < |raw| ==> IsSpace(raw[k]) || raw[k] == SEPARATOR {
      BlankFieldNoTargets(raw);
    } else {
      var k :| 0 <= k < |raw| && !IsSpace(raw[k]) && raw[k] != SEPARATOR;
      VisibleCharacterGivesTarget(raw, k);
    }
  }

  /** Pieces that are already targets come through `CleanParts` unchanged. */
  lemma {:induction false} CleanPartsTargets(parts: seq<string>)
    requires forall i :: 0 <= i < |parts| ==> IsTarget(parts[i])
    ensures CleanParts(parts) == parts
  {
    if parts != [] {
      StripStripped(parts[0]);
      CleanPartsTargets(parts[1..]);
      assert [parts[0]] + parts[1..] == parts;
    }
  }

  /** Joining targets gives a non-empty string with no surrounding whitespace. */
  lemma JoinedTargetsStripped(paths: seq<string>)
    requires |paths| > 0 && forall i :: 0 <= i < |paths| ==> IsTarget(paths[i])
    ensures Join(paths, SEPARATOR) != [] && Stripped(Join(paths, SEPARATOR))
  {
    var raw := Join(paths, SEPARATOR);
    var first, last := paths[0], paths[|paths| - 1];
    assert IsTarget(first) && IsTarget(last);
    JoinEnds(paths, SEPARATOR);
    assert raw[0] == raw[..|first|][0] == first[0];
    assert raw[|raw| - 1] == raw[|raw| - |last|..][|last| - 1] == last[|last| - 1];
  }

  /** `get_targets` undoes `select_target`'s `';'.join(paths)` for paths it could itself have returned. */
  lemma GetTargetsJoin(paths: seq<string>)
    requires forall i :: 0 <= i < |paths| ==> IsTarget(paths[i])
    ensures GetTargets(Join(paths, SEPARATOR)) == paths
  {
    if paths != [] {
      var raw := Join(paths, SEPARATOR);
      JoinedTargetsStripped(paths);
      StripStripped(raw);
      assert forall i :: 0 <= i < |paths| ==> SEPARATOR !in paths[i];
      SplitJoin(paths, SEPARATOR);
      CleanPartsTargets(paths);
    }
  }
}

/**
 * The string part of `get_first_sentence` in app.py: given the plain-text
 * introduction of an article, keep the text before the first ". " and put
 * the full stop back. The HTTP request and the JSON parsing are abstracted
 * into one `Option<string>`: `None` when any step of the lookup raised,
 * `Some(extract)` otherwise (`Some("")` when the page has no `extract`).
 */
module Text {
  import opened Wrappers

  /** The sentence terminator the extract is split on. */
  const Sep: string := ". "

  /**
   * What the fetcher returns when it has no usable sentence:
   * "Could not retrieve the first sentence for this location." (written in
   * short pieces so that the verifier can look inside it).
   */
  const SentinelWords: string :=
    "Could not " + "retrieve " + "the first " + "sentence " + "for this " + "location"
  const Sentinel: string := SentinelWords + "."

  /** `p` occurs in `s` starting at index `i`. */
  predicate OccursAt(s: string, p: string, i: int)
  {
    0 <= i && i + |p| <= |s| && s[i..i + |p|] == p
  }

  /** Dropping the first character of `s` moves every occurrence one to the left. */
  lemma OccursShift(s: string, p: string, j: int)
    requires 1 <= j && |s| > 0
    ensures OccursAt(s, p, j) <==> OccursAt(s[1..], p, j - 1)
  {
  }

  /**
   * Python's `p in s` for strings, scanning `s` from the left: it holds
   * exactly when `p` occurs at some index of `s`.
   */
  predicate Contains(s: string, p: string): (r: bool)
    ensures r ==> exists i :: OccursAt(s, p, i)
    ensures !r ==> forall i :: !OccursAt(s, p, i)
    decreases |s|
  {
    if |s| < |p| then false
    else if s[..|p|] == p then
      assert OccursAt(s, p, 0);
      true
    else
      var rest := Contains(s[1..], p);
      forall j | 1 <= j
        ensures OccursAt(s, p, j) <==> OccursAt(s[1..], p, j - 1)
      {
        OccursShift(s, p, j);
      }
      forall i | 0 <= i && OccursAt(s[1..], p, i)
        ensures OccursAt(s, p, i + 1)
      {
        OccursShift(s, p, i + 1);
      }
      assert !OccursAt(s, p, 0);
      rest
  }

  /**
   * Python's `s.split('. ')[0]`: the text before the first occurrence of
   * ". ", or all of `s` when there is none.
   */
  function FirstPiece(s: string): (r: string)
    ensures |r| <= |s| && r == s[..|r|]
    ensures forall j :: 0 <= j < |r| ==> !OccursAt(s, Sep, j)
    ensures r == s || OccursAt(s, Sep, |r|)
    decreases |s|
  {
    if |s| < 2 then s
    else if s[0] == '.' && s[1] == ' ' then ""
    else
      var rest := FirstPiece(s[1..]);
      assert !OccursAt(s, Sep, 0);
      forall j | 1 <= j <= |rest| + 1
        ensures OccursAt(s, Sep, j) <==> OccursAt(s[1..], Sep, j - 1)
      {
        OccursShift(s, Sep, j);
      }
      [s[0]] + rest
  }

  /** The first piece is all of `s` exactly when `s` has no ". " in it. */
  lemma FirstPieceWhole(s: string)
    ensures FirstPiece(s) == s <==> !Contains(s, Sep)
  {
  }

  /** `get_first_sentence` once the request has been made. */
  function FirstSentence(lookup: Option<string>): (r: string)
    ensures |r| > 0 && r[|r| - 1] == '.'
    ensures !Contains(r, Sep)
  {
    match lookup
    case Some(extract) =>
      if extract != "" then
        var piece := FirstPiece(extract);
        NoSepBeforePeriod(extract, piece);
        piece + "."
      else
        SentinelHasNoSep();
        Sentinel
    case None =>
      SentinelHasNoSep();
      Sentinel
  }

  /** Appending "." to the first piece cannot create a ". ". */
  lemma NoSepBeforePeriod(s: string, piece: string)
    requires piece == FirstPiece(s)
    ensures !Contains(piece + ".", Sep)
  {
    var r := piece + ".";
    forall i | 0 <= i && i + 2 <= |r|
      ensures !OccursAt(r, Sep, i)
    {
      if i + 2 <= |piece| {
        assert r[i..i + 2] == s[i..i + 2];
        assert !OccursAt(s, Sep, i);
      } else {
        assert i + 1 == |piece| && r[i + 1] == '.' && Sep[1] == ' ';
        assert r[i..i + 2][1] != Sep[1];
      }
    }
  }

  /** The sentinel is a single sentence. */
  lemma SentinelHasNoSep()
    ensures !Contains(Sentinel, Sep)
  {
    assert Sentinel[..|Sentinel| - 1] == SentinelWords;
    forall i | 0 <= i && i + 2 <= |Sentinel|
      ensures !OccursAt(Sentinel, Sep, i)
    {
      assert Sentinel[i] == SentinelWords[i];
    }
  }

  /**
   * The promise of `get_first_sentence`: a failed lookup or an empty extract
   * gives the sentinel; otherwise the result is the extract up to its first
   * ". " with a full stop after it, and the whole extract plus "." when the
   * extract has no ". ".
   */
  lemma FirstSentenceCases(lookup: Option<string>)
    ensures lookup.None? || lookup.value == "" ==> FirstSentence(lookup) == Sentinel
    ensures lookup.Some? && lookup.value != "" ==>
      var e := lookup.value;
      var r := FirstSentence(lookup);
      exists k :: 0 <= k <= |e| && r == e[..k] + "."
        && (forall j :: 0 <= j < k ==> !OccursAt(e, Sep, j))
        && (k < |e| ==> OccursAt(e, Sep, k))
        && (k == |e| <==> !Contains(e, Sep))
  {
    if lookup.Some? && lookup.value != "" {
      var e := lookup.value;
      var k := |FirstPiece(e)|;
      FirstPieceWhole(e);
      assert FirstSentence(lookup) == e[..k] + ".";
    }
  }
}

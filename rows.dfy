/**
 * The text search the staff, vehicle and crop tables share: every row of the
 * table body stays shown exactly when its lower-cased text contains the
 * lower-cased search value (`row.style.display = text.includes(term) ? '' :
 * 'none'`, or jQuery's `toggle`). A table is its rows' texts; the result is
 * one visibility flag per row.
 */
module Rows {
  import opened TextOps

  /** Whether a row of text `text` stays shown for the search value `term`. */
  predicate Matches(text: string, term: string) {
    ContainsIgnoringCase(text, term)
  }

  /** The per-row loop of the search handler. */
  method SearchRows(texts: seq<string>, term: string) returns (shown: seq<bool>)
    ensures |shown| == |texts|
    ensures forall i :: 0 <= i < |texts| ==> (shown[i] <==> Matches(texts[i], term))
  {
    shown := [];
    var i := 0;
    while i < |texts|
      invariant 0 <= i <= |texts|
      invariant |shown| == i
      invariant forall k :: 0 <= k < i ==> (shown[k] <==> Matches(texts[k], term))
    {
      var text := Lower(texts[i]);
      shown := shown + [Contains(text, Lower(term))];
      i := i + 1;
    }
  }

  /** An empty search box shows every row. */
  lemma EmptySearchShowsAll(text: string)
    ensures Matches(text, "")
  {
    ContainsEmpty(Lower(text));
  }

  lemma LowerAppend(s: string, t: string)
    ensures Lower(s + t) == Lower(s) + Lower(t)
  {
  }

  lemma PrefixContains(s: string, t: string, u: string)
    requires Contains(s, t + u)
    ensures Contains(s, t)
  {
    var i :| 0 <= i <= |s| && t + u <= s[i..];
    assert t <= s[i..];
  }

  /** Typing more characters only hides rows: a row shown for a longer value is shown for every prefix of it. */
  lemma SearchNarrows(text: string, t: string, u: string)
    requires Matches(text, t + u)
    ensures Matches(text, t)
  {
    LowerAppend(t, u);
    PrefixContains(Lower(text), Lower(t), Lower(u));
  }

  /** Case does not matter: the search value and its lower-cased form show the same rows. */
  lemma LowerIdempotent(s: string)
    ensures Lower(Lower(s)) == Lower(s)
  {
  }

  lemma CaseInsensitive(text: string, term: string)
    ensures Matches(text, term) <==> Matches(text, Lower(term))
  {
    LowerIdempotent(term);
  }
}

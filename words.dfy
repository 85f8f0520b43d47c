// Splitting text into words, as `text.split(/\s+/)` in the client and
// `text.split()` in the backend do, and the word count both take from it.
module Words {
  import opened Text
  import opened Seqs

  /**
   * `s.split(re)` where `re` matches one separator character or a run of
   * them. Splitting at every separator rather than at every run only adds
   * empty pieces, which both uses below drop.
   */
  function SplitWhere(s: string, isSep: char -> bool): (pieces: seq<string>)
    ensures |pieces| >= 1
    ensures forall k, i :: 0 <= k < |pieces| && 0 <= i < |pieces[k]| ==> !isSep(pieces[k][i])
  {
    if s == [] then [""]
    else
      var rest := SplitWhere(s[1..], isSep);
      if isSep(s[0]) then [""] + rest else [[s[0]] + rest[0]] + rest[1..]
  }

  function NonEmpty(piece: string): bool { piece != "" }

  /** `draft.split(/\s+/).filter(Boolean).length` in the client, `len(draft.split())` in the backend. */
  function WordCount(draft: string): nat
  {
    Count(SplitWhere(draft, IsSpace), NonEmpty)
  }

  /** A text with a character other than a separator has at least one non-empty piece. */
  lemma {:induction false} SplitWhereHasPiece(s: string, isSep: char -> bool, i: nat)
    requires i < |s| && !isSep(s[i])
    ensures Count(SplitWhere(s, isSep), NonEmpty) >= 1
  {
    var rest := SplitWhere(s[1..], isSep);
    if isSep(s[0]) {
      SplitWhereHasPiece(s[1..], isSep, i - 1);
      assert SplitWhere(s, isSep) == [""] + rest;
    } else {
      var pieces := SplitWhere(s, isSep);
      assert pieces[0] == [s[0]] + rest[0];
    }
  }

  /** A draft that is not blank has at least one word. */
  lemma WordCountPositive(draft: string)
    requires !IsBlank(draft)
    ensures WordCount(draft) >= 1
  {
    BlankIffAllSpace(draft);
    var i :| 0 <= i < |draft| && !IsSpace(draft[i]);
    SplitWhereHasPiece(draft, IsSpace, i);
  }
}

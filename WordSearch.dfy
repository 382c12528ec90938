/** The regular-expression tests `/\besmtp\b/i` and `/\bSTARTTLS\b/i`: does a
    reply text contain a word, compared without regard to case, with a word
    boundary on both sides? In a non-Unicode JavaScript pattern a word character
    is one of A-Z, a-z, 0-9 and `_`, and case-insensitive matching folds only ASCII
    letters onto ASCII letters, so folding A-Z to a-z is exact for these patterns. */
module WordSearch {

  predicate IsWordChar(c: char)
  {
    ('a' <= c <= 'z') || ('A' <= c <= 'Z') || ('0' <= c <= '9') || c == '_'
  }

  function Fold(c: char): char
  {
    if 'A' <= c <= 'Z' then (c as int + 32) as char else c
  }

  /** Position `k` of `s` holds a word character (false outside `s`). */
  predicate WordCharAt(s: string, k: int)
  {
    0 <= k < |s| && IsWordChar(s[k])
  }

  /** `\b` at position `k`: a word character on exactly one side. */
  predicate BoundaryAt(s: string, k: int)
  {
    WordCharAt(s, k - 1) != WordCharAt(s, k)
  }

  predicate SameIgnoringCase(a: string, b: string)
  {
    |a| == |b| && forall k :: 0 <= k < |a| ==> Fold(a[k]) == Fold(b[k])
  }

  /** The pattern `\bw\b` with the `i` flag matches `s` at index `i`. */
  predicate WordAt(s: string, w: string, i: int)
  {
    0 <= i && i + |w| <= |s|
    && BoundaryAt(s, i)
    && SameIgnoringCase(s[i..i + |w|], w)
    && BoundaryAt(s, i + |w|)
  }

  /** Left-to-right search for a match at index `i` or later. */
  function FindFrom(s: string, w: string, i: nat): bool
    decreases |s| - i
  {
    if i + |w| > |s| then false
    else WordAt(s, w, i) || FindFrom(s, w, i + 1)
  }

  /** `RegExp.prototype.test` for `/\bw\b/i`. */
  function HasWord(s: string, w: string): bool
  {
    FindFrom(s, w, 0)
  }

  lemma {:induction false} FindFromMeans(s: string, w: string, i: nat)
    ensures FindFrom(s, w, i) <==> exists j :: i <= j && WordAt(s, w, j)
    decreases |s| - i
  {
    if i + |w| <= |s| {
      FindFromMeans(s, w, i + 1);
      assert (exists j :: i <= j && WordAt(s, w, j))
        <==> WordAt(s, w, i) || exists j :: i + 1 <= j && WordAt(s, w, j);
    }
  }

  /** The search succeeds exactly when the pattern matches at some index. */
  lemma HasWordMeans(s: string, w: string)
    ensures HasWord(s, w) <==> exists i :: WordAt(s, w, i)
  {
    FindFromMeans(s, w, 0);
  }
}

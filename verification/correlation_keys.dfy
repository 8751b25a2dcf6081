/**
 * The order-independent correlation keys of a ConfirmDuplicate command,
 * derived the same way by the operator console and the test factory: the two
 * document ids are sorted with JavaScript's default `sort()` (UTF-16 code-unit
 * order, stable), then joined.
 */
module CorrelationKeys {
  import opened Text

  /** `[a, b].sort()` on two strings. */
  function SortedPair(a: string, b: string): (r: (string, string))
    ensures r == (a, b) || r == (b, a)
    ensures !StringLess(r.1, r.0)
  {
    StringLessTotal(a, b);
    if StringLess(b, a) then (b, a) else (a, b)
  }

  /** `left::right` over the sorted pair. */
  function PairKey(documentId: string, duplicateOfId: string): string {
    var (left, right) := SortedPair(documentId, duplicateOfId);
    left + "::" + right
  }

  /** `session:left:right` over the sorted pair. */
  function DeterministicKey(sessionId: string, documentId: string, duplicateOfId: string): string {
    var (left, right) := SortedPair(documentId, duplicateOfId);
    sessionId + ":" + left + ":" + right
  }

  /** The sorted pair does not depend on which id is the duplicate. */
  lemma SortedPairSymmetric(a: string, b: string)
    ensures SortedPair(a, b) == SortedPair(b, a)
  {
    StringLessTotal(a, b);
  }

  /** Swapping the document and the document it duplicates leaves both keys unchanged. */
  lemma KeysSymmetric(sessionId: string, a: string, b: string)
    ensures PairKey(a, b) == PairKey(b, a)
    ensures DeterministicKey(sessionId, a, b) == DeterministicKey(sessionId, b, a)
  {
    SortedPairSymmetric(a, b);
  }

  /** The keys put the smaller id first. */
  lemma KeysPutSmallerFirst(sessionId: string, a: string, b: string)
    requires StringLess(a, b)
    ensures PairKey(a, b) == a + "::" + b && PairKey(b, a) == a + "::" + b
    ensures DeterministicKey(sessionId, b, a) == sessionId + ":" + a + ":" + b
  {
    StringLessTotal(a, b);
  }

  /**
   * The story 1.3 automation test's ids: the generated deterministic key puts
   * `doc-a` first, as the pair key does.
   */
  lemma StoryTestKeys()
    ensures PairKey("doc-z", "doc-a") == "doc-a::doc-z"
    ensures DeterministicKey("session-dup-p1", "doc-z", "doc-a") == "session-dup-p1:doc-a:doc-z"
  {
    DocABeforeDocZ();
    KeysPutSmallerFirst("session-dup-p1", "doc-a", "doc-z");
    var pair, det := "doc-a" + "::" + "doc-z", "session-dup-p1" + ":" + "doc-a" + ":" + "doc-z";
    assert pair == "doc-a::doc-z";
    assert det == "session-dup-p1:doc-a:doc-z";
  }

  lemma DocABeforeDocZ()
    ensures StringLess("doc-a", "doc-z")
  {
    assert "doc-a" == "doc-" + ['a'] + "" && "doc-z" == "doc-" + ['z'] + "";
    StringLessAtFirstDifference("doc-", 'a', 'z', "", "");
  }
}

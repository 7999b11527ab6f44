/** Reading an integer back out of a sentence that ends with it. */
module Text {
  import opened Wrappers
  import opened Decimal

  /** Length of the last word of s: the longest suffix without a space. */
  function LastWordLength(s: string): (k: nat)
    ensures k <= |s|
    ensures forall i :: |s| - k <= i < |s| ==> s[i] != ' '
    ensures k < |s| ==> s[|s| - k - 1] == ' '
  {
    if s == [] || s[|s| - 1] == ' ' then 0 else LastWordLength(s[..|s| - 1]) + 1
  }

  lemma LastWordAfterSpace(p: string, w: string)
    requires ' ' !in w
    ensures LastWordLength(p + [' '] + w) == |w|
  {
    var s := p + [' '] + w;
    assert s[|p|] == ' ';
    assert forall j :: 0 <= j < |w| ==> s[|p| + 1 + j] == w[j] != ' ';
  }

  /** The text before a known suffix, if s ends with it. */
  function DropSuffix(s: string, suffix: string): (r: Option<string>)
    ensures r.Some? ==> r.value + suffix == s
  {
    if |suffix| <= |s| && s[|s| - |suffix|..] == suffix then Some(s[..|s| - |suffix|]) else None
  }

  lemma DropSuffixRoundTrip(p: string, suffix: string)
    ensures DropSuffix(p + suffix, suffix) == Some(p)
  {
    var s := p + suffix;
    assert s[|s| - |suffix|..] == suffix;
    assert s[..|s| - |suffix|] == p;
  }

  /** Splits `head + infix + n` into head and the integer n, where n is the
      last word of s and infix is what stands between them. */
  function ReadAfter(s: string, infix: string): Option<(string, int)> {
    var k := LastWordLength(s);
    match (DropSuffix(s[..|s| - k], infix), ParseInt(s[|s| - k..]))
    case (Some(head), Some(n)) => Some((head, n))
    case _ => None
  }

  /** ReadAfter recovers the head and the integer that IntToString wrote,
      whenever the infix ends with a space. */
  lemma ReadAfterRoundTrip(head: string, infix: string, n: int)
    requires infix != [] && infix[|infix| - 1] == ' '
    ensures ReadAfter(head + infix + IntToString(n), infix) == Some((head, n))
  {
    var w := IntToString(n);
    var s := head + infix + w;
    var p := head + infix[..|infix| - 1];
    assert s == p + [' '] + w;
    LastWordAfterSpace(p, w);
    assert s[..|s| - |w|] == head + infix;
    assert s[|s| - |w|..] == w;
    DropSuffixRoundTrip(head, infix);
    IntRoundTrip(n);
  }
}

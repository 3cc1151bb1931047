/**
 * `strings.Trim(s, "\"")` from Go's standard library, as the BMC driver uses
 * it on the If-None-Match value: every leading and every trailing double
 * quote is removed, interior characters are kept. Here the leading quotes
 * are skipped first; which end is trimmed first does not change the result.
 */
module QuoteTrim {

  const Quote: char := '"'

  predicate AllQuotes(s: string)
  {
    forall i :: 0 <= i < |s| ==> s[i] == Quote
  }

  /** Neither end of `s` is a quote. */
  predicate Unquoted(s: string)
  {
    s == [] || (s[0] != Quote && s[|s| - 1] != Quote)
  }

  /** The first position at or after `i` that does not hold a quote. */
  function SkipQuotes(s: string, i: nat): (k: nat)
    requires i <= |s|
    ensures i <= k <= |s|
    ensures forall j :: i <= j < k ==> s[j] == Quote
    ensures k < |s| ==> s[k] != Quote
    decreases |s| - i
  {
    if i < |s| && s[i] == Quote then SkipQuotes(s, i + 1) else i
  }

  /** The end of `s[lo..hi]` once the quotes at its end are dropped. */
  function DropQuotes(s: string, lo: nat, hi: nat): (k: nat)
    requires lo <= hi <= |s|
    ensures lo <= k <= hi
    ensures forall j :: k <= j < hi ==> s[j] == Quote
    ensures k > lo ==> s[k - 1] != Quote
  {
    if hi > lo && s[hi - 1] == Quote then DropQuotes(s, lo, hi - 1) else hi
  }

  function Trim(s: string): (r: string)
    ensures |r| <= |s|
    ensures Unquoted(r)
  {
    var lo := SkipQuotes(s, 0);
    s[lo..DropQuotes(s, lo, |s|)]
  }

  /** The result is a slice of `s` with nothing but quotes around it and no
      quote at either of its ends. */
  lemma TrimShape(s: string)
    ensures Unquoted(Trim(s))
    ensures var lo := SkipQuotes(s, 0);
            && lo + |Trim(s)| <= |s| && Trim(s) == s[lo..lo + |Trim(s)|]
            && AllQuotes(s[..lo]) && AllQuotes(s[lo + |Trim(s)|..])
  {
    var lo := SkipQuotes(s, 0);
    var hi := DropQuotes(s, lo, |s|);
    assert AllQuotes(s[..lo]) by {
      forall j | 0 <= j < lo
        ensures s[..lo][j] == Quote
      {
      }
    }
    assert AllQuotes(s[hi..]) by {
      forall j | 0 <= j < |s| - hi
        ensures s[hi..][j] == Quote
      {
        assert s[hi..][j] == s[hi + j];
      }
    }
  }

  /** Quotes around an unquoted middle are removed and the middle is kept
      exactly; with `TrimShape` this pins the result down uniquely. */
  lemma TrimKeepsInterior(pre: string, mid: string, post: string)
    requires AllQuotes(pre) && AllQuotes(post) && Unquoted(mid)
    ensures Trim(pre + mid + post) == mid
  {
    var s := pre + mid + post;
    var end := |pre| + |mid|;
    assert forall j :: 0 <= j < |pre| ==> s[j] == pre[j];
    assert forall j :: end <= j < |s| ==> s[j] == post[j - end];
    var lo := SkipQuotes(s, 0);
    var hi := DropQuotes(s, lo, |s|);
    if mid != [] {
      assert s[|pre|] == mid[0] && s[end - 1] == mid[|mid| - 1];
      assert lo == |pre|;
      assert hi == end;
      assert s[lo..hi] == mid;
    }
  }

  /** Trimming an already trimmed value changes nothing. */
  lemma TrimIdempotent(s: string)
    ensures Trim(Trim(s)) == Trim(s)
  {
    TrimShape(s);
    TrimKeepsInterior([], Trim(s), []);
    assert [] + Trim(s) + [] == Trim(s);
  }
}

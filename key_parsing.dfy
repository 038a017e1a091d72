/**
 * Splitting a conflated column name such as "NORTHBOUNDlottr_ampk" back into its direction
 * and its metric, with the patterns `(.*BOUND).*` (the direction) and `.*BOUND(.*)` (the metric).
 * Both patterns are anchored at the start (`re.match` / `str.extract`) and their leading `.*`
 * is greedy, so both split at the LAST occurrence of "BOUND".
 */
module KeyParsing {
  import opened Wrappers
  import opened Strings

  const Bound := "BOUND"

  /** The last index `<= i` where "BOUND" occurs in `s`, or -1. */
  function LastBoundAt(s: string, i: int): (r: int)
    requires -1 <= i <= |s|
    ensures r == -1 || (0 <= r <= i && OccursAt(s, Bound, r))
    ensures forall j :: r < j <= i ==> !OccursAt(s, Bound, j)
    decreases i + 1
  {
    if i < 0 then -1
    else if OccursAt(s, Bound, i) then i
    else LastBoundAt(s, i - 1)
  }

  /**
   * The two capture groups: `Some((direction, metric))`, or `None` when the patterns do not
   * match (`str.extract` gives NaN there, and `re.match(...).group` fails).
   */
  function ParseKey(s: string): Option<(string, string)>
  {
    var j := LastBoundAt(s, |s|);
    if j < 0 then None else Some((s[..j + |Bound|], s[j + |Bound|..]))
  }

  predicate EndsWithBound(d: string)
  {
    |d| >= |Bound| && d[|d| - |Bound|..] == Bound
  }

  /** None of the last four characters of a name ending in "BOUND" is a 'B'. */
  lemma NoBoundStartsInTail(d: string, j: int)
    requires EndsWithBound(d) && |d| - |Bound| < j < |d|
    ensures d[j] != 'B'
  {
    assert d[j] == d[|d| - |Bound|..][j - (|d| - |Bound|)];
  }

  /** The patterns fail exactly on names without "BOUND". */
  lemma ParseKeyNone(s: string)
    ensures ParseKey(s).None? <==> !Contains(s, Bound)
  {
    var j := LastBoundAt(s, |s|);
    if j >= 0 {
      assert OccursAt(s, Bound, j);
    }
  }

  /**
   * Whatever the two groups are, they split the name: the direction ends in "BOUND", the
   * metric contains no "BOUND", and together they give the name back.
   */
  lemma ParseKeySplits(s: string)
    requires ParseKey(s).Some?
    ensures ParseKey(s).value.0 + ParseKey(s).value.1 == s
    ensures EndsWithBound(ParseKey(s).value.0)
    ensures !Contains(ParseKey(s).value.1, Bound)
  {
    var j := LastBoundAt(s, |s|);
    var d, m := s[..j + |Bound|], s[j + |Bound|..];
    assert d + m == s;
    assert d[|d| - |Bound|..] == s[j..j + |Bound|];
    forall i | 0 <= i <= |m|
      ensures !OccursAt(m, Bound, i)
    {
      OccursFromSuffix(d, m, Bound, i);
    }
  }

  /**
   * Conversely, a direction ending in "BOUND" followed by a metric without "BOUND" parses
   * back into exactly those two parts: no occurrence can straddle the seam, because none
   * of "OUND" is a 'B'.
   */
  lemma ParseKeyOfJoin(d: string, m: string)
    requires EndsWithBound(d) && !Contains(m, Bound)
    ensures ParseKey(d + m) == Some((d, m))
  {
    var s := d + m;
    var k := |d| - |Bound|;
    assert s[k..k + |Bound|] == d[k..];
    assert OccursAt(s, Bound, k);
    forall j | k < j <= |s|
      ensures !OccursAt(s, Bound, j)
    {
      if j < |d| {
        NoBoundStartsInTail(d, j);
        OccursAtHead(s, Bound, j);
      } else {
        OccursInSuffix(d, m, Bound, j);
      }
    }
    var r := LastBoundAt(s, |s|);
    assert r == k;
    assert s[..k + |Bound|] == d;
  }

  /** Distinct names that parse give distinct (direction, metric) pairs: the pivot sees no duplicate cell. */
  lemma ParseKeyInjective(s: string, t: string)
    requires ParseKey(s).Some? && ParseKey(t).Some? && s != t
    ensures ParseKey(s) != ParseKey(t)
  {
    ParseKeySplits(s);
    ParseKeySplits(t);
  }

  /** "NORTHBOUNDlottr_ampk" splits into "NORTHBOUND" and "lottr_ampk". */
  lemma ParseKeyExample()
    ensures ParseKey("NORTHBOUNDlottr_ampk") == Some(("NORTHBOUND", "lottr_ampk"))
  {
    assert NoChar("lottr_ampk", 'B');
    NoHeadNotContains("lottr_ampk", Bound);
    ParseKeyOfJoin("NORTHBOUND", "lottr_ampk");
    assert "NORTHBOUND" + "lottr_ampk" == "NORTHBOUNDlottr_ampk";
  }
}

/**
 * `NPMRDS.remove_forbidden_chars`: project names are made safe for file and sheet names by
 * replacing '&' with "And", '%' with "pct", and both '/' and ':' with '-'.
 */
module ForbiddenChars {

  /** `repldict` */
  const Replacements: map<char, string> := map['&' := "And", '%' := "pct", '/' := "-", ':' := "-"]

  predicate Forbidden(c: char)
  {
    c in Replacements
  }

  predicate Clean(s: string)
  {
    forall i :: 0 <= i < |s| ==> !Forbidden(s[i])
  }

  /** What one character becomes. */
  function Fix(c: char): string
  {
    if c in Replacements then Replacements[c] else [c]
  }

  /** Each character replaced in turn, in order. */
  function ReplaceForbidden(s: string): string
  {
    if s == [] then [] else ReplaceForbidden(s[..|s| - 1]) + Fix(s[|s| - 1])
  }

  /** `remove_forbidden_chars` */
  method RemoveForbiddenChars(inStr: string) returns (outStr: string)
    ensures outStr == ReplaceForbidden(inStr)
  {
    outStr := "";
    for i := 0 to |inStr|
      invariant outStr == ReplaceForbidden(inStr[..i])
    {
      var c := inStr[i];
      if c in Replacements {
        var cfix := Replacements[c];
        outStr := outStr + cfix;
      } else {
        outStr := outStr + [c];
      }
      assert inStr[..i + 1][..i] == inStr[..i];
    }
    assert inStr[..|inStr|] == inStr;
  }

  lemma CleanConcat(a: string, b: string)
    requires Clean(a) && Clean(b)
    ensures Clean(a + b)
  {
    assert forall i :: |a| <= i < |a + b| ==> (a + b)[i] == b[i - |a|];
  }

  /** No replacement text holds a forbidden character. */
  lemma FixClean(c: char)
    ensures Clean(Fix(c))
  {
  }

  /** The result holds none of '&', '%', '/', ':'. */
  lemma {:induction false} ReplaceForbiddenClean(s: string)
    ensures Clean(ReplaceForbidden(s))
  {
    if s != [] {
      ReplaceForbiddenClean(s[..|s| - 1]);
      FixClean(s[|s| - 1]);
      CleanConcat(ReplaceForbidden(s[..|s| - 1]), Fix(s[|s| - 1]));
    }
  }

  /** A name that is already clean comes back unchanged. */
  lemma {:induction false} ReplaceForbiddenIdentity(s: string)
    requires Clean(s)
    ensures ReplaceForbidden(s) == s
  {
    if s != [] {
      ReplaceForbiddenIdentity(s[..|s| - 1]);
      assert s == s[..|s| - 1] + [s[|s| - 1]];
    }
  }

  /** Applying the replacement twice is the same as applying it once. */
  lemma ReplaceForbiddenIdempotent(s: string)
    ensures ReplaceForbidden(ReplaceForbidden(s)) == ReplaceForbidden(s)
  {
    ReplaceForbiddenClean(s);
    ReplaceForbiddenIdentity(ReplaceForbidden(s));
  }

  /** The result is never shorter; it is longer exactly when the name holds '&' or '%'. */
  lemma {:induction false} ReplaceForbiddenLength(s: string)
    ensures |ReplaceForbidden(s)| >= |s|
    ensures |ReplaceForbidden(s)| == |s| <==> forall i :: 0 <= i < |s| ==> s[i] != '&' && s[i] != '%'
  {
    if s != [] {
      var n := |s| - 1;
      ReplaceForbiddenLength(s[..n]);
      assert forall i :: 0 <= i < n ==> s[..n][i] == s[i];
    }
  }

  lemma ReplaceForbiddenExample()
    ensures ReplaceForbidden("a&b/%") == "aAndb-pct"
  {
    assert "a&b/%"[..4] == "a&b/";
    assert "a&b/"[..3] == "a&b";
    assert "a&b"[..2] == "a&";
    assert "a&"[..1] == "a";
    assert "a"[..0] == "";
  }
}

/** The two java.lang.String queries the protocol relies on. */
module Text {

  /** String.startsWith */
  predicate StartsWith(s: string, prefix: string)
  {
    |prefix| <= |s| && s[..|prefix|] == prefix
  }

  /** A string println writes as exactly one line: it holds no line terminator. */
  predicate SingleLine(s: string)
  {
    '\n' !in s && '\r' !in s
  }

  /** String.contains: some suffix of `s` starts with `t`. */
  predicate Contains(s: string, t: string)
    decreases |s|
  {
    StartsWith(s, t) || (|s| > 0 && Contains(s[1..], t))
  }

  /** `t` occurs in `s` starting at index `i`. */
  ghost predicate OccursAt(s: string, t: string, i: int)
  {
    0 <= i <= |s| - |t| && s[i..i + |t|] == t
  }

  /** `Contains` is exactly "`t` occurs at some index of `s`". */
  lemma {:induction false} ContainsAtIndex(s: string, t: string)
    ensures Contains(s, t) <==> exists i :: OccursAt(s, t, i)
    decreases |s|
  {
    if StartsWith(s, t) {
      assert OccursAt(s, t, 0);
    } else if |s| == 0 {
    } else {
      ContainsAtIndex(s[1..], t);
      if Contains(s[1..], t) {
        var i :| OccursAt(s[1..], t, i);
        assert s[i + 1..i + 1 + |t|] == s[1..][i..i + |t|];
        assert OccursAt(s, t, i + 1);
      }
      if i :| OccursAt(s, t, i) {
        assert i != 0;
        assert s[1..][i - 1..i - 1 + |t|] == s[i..i + |t|];
        assert OccursAt(s[1..], t, i - 1);
      }
    }
  }

  /** A string that lacks the first character of a non-empty `t` cannot contain `t`. */
  lemma {:induction false} ContainsNeedsFirstChar(s: string, t: string)
    requires |t| > 0 && Contains(s, t)
    ensures t[0] in s
    decreases |s|
  {
    if StartsWith(s, t) {
      assert s[0] == t[0];
    } else {
      ContainsNeedsFirstChar(s[1..], t);
      assert t[0] in s[1..];
    }
  }

  /** A prefix is in particular contained. */
  lemma StartsWithContains(s: string, t: string)
    requires StartsWith(s, t)
    ensures Contains(s, t)
  {
  }
}

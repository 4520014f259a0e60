/**
 * `evaluateVariables`: every `{dir}` in a text becomes the fixture
 * directory. Go's `strings.ReplaceAll` scans from the left and resumes
 * after each replaced occurrence, so occurrences never overlap.
 */
module Variables {

  const Placeholder: string := "{dir}"

  /** `{dir}` occurs in `s` starting at index `i`. */
  predicate OccursAt(s: string, i: int)
  {
    0 <= i && i + |Placeholder| <= |s| && s[i..i + |Placeholder|] == Placeholder
  }

  /** `evaluateVariables(s, dir)`. */
  function Substitute(s: string, dir: string): (r: string)
    ensures forall c | c in r :: c in s || c in dir
    ensures forall c | c in s && c !in Placeholder :: c in r
    decreases |s|
  {
    if |s| < |Placeholder| then s
    else if s[..|Placeholder|] == Placeholder then dir + Substitute(s[|Placeholder|..], dir)
    else [s[0]] + Substitute(s[1..], dir)
  }

  /** Text without `{dir}` is returned unchanged. */
  lemma {:induction false} SubstituteWithoutPlaceholder(s: string, dir: string)
    requires forall i :: !OccursAt(s, i)
    ensures Substitute(s, dir) == s
    decreases |s|
  {
    if |s| >= |Placeholder| {
      assert !OccursAt(s, 0);
      forall i ensures !OccursAt(s[1..], i) {
        if OccursAt(s[1..], i) {
          assert s[1..][i..i + |Placeholder|] == s[i + 1..i + 1 + |Placeholder|];
          assert OccursAt(s, i + 1);
        }
      }
      SubstituteWithoutPlaceholder(s[1..], dir);
    }
  }

  /** Text without a `{` has nothing to replace. */
  lemma SubstituteWithoutBrace(s: string, dir: string)
    requires '{' !in s
    ensures Substitute(s, dir) == s
  {
    forall i
      ensures !OccursAt(s, i)
    {
      if 0 <= i && i + |Placeholder| <= |s| {
        assert s[i..i + |Placeholder|][0] == s[i] != Placeholder[0];
      }
    }
    SubstituteWithoutPlaceholder(s, dir);
  }

  /** Occurrences in the tail of a text are the occurrences in the text, one place later. */
  lemma OccursShift(s: string, k: nat)
    requires s != []
    ensures OccursAt(s[1..], k) <==> OccursAt(s, k + 1)
  {
    if k + |Placeholder| <= |s| - 1 {
      assert s[1..][k..k + |Placeholder|] == s[k + 1..k + 1 + |Placeholder|];
    }
  }

  /** A text that does not start with `{dir}` keeps its first character. */
  lemma SubstituteFirstChar(s: string, dir: string)
    requires s != [] && !OccursAt(s, 0)
    ensures Substitute(s, dir) == [s[0]] + Substitute(s[1..], dir)
  {
    if |s| < |Placeholder| {
      assert s == [s[0]] + s[1..];
    } else {
      assert s[..|Placeholder|] == s[0..|Placeholder|];
    }
  }

  /** A text that starts with `{dir}` begins with `dir`. */
  lemma SubstituteAtStart(s: string, dir: string)
    requires OccursAt(s, 0)
    ensures Substitute(s, dir) == s[..0] + dir + Substitute(s[|Placeholder|..], dir)
  {
    assert s[..|Placeholder|] == Placeholder;
    assert s[..0] + dir == dir;
  }

  /**
   * Left to right and without overlap: the text in front of the first
   * `{dir}` is kept as it is, that occurrence becomes `dir`, and the
   * replacement goes on after it.
   */
  lemma {:induction false} SubstituteFirstOccurrence(s: string, i: nat, dir: string)
    requires OccursAt(s, i)
    requires forall k :: 0 <= k < i ==> !OccursAt(s, k)
    ensures Substitute(s, dir) == s[..i] + dir + Substitute(s[i + |Placeholder|..], dir)
    decreases i
  {
    if i == 0 {
      SubstituteAtStart(s, dir);
    } else {
      var t := s[1..];
      var after := Substitute(s[i + |Placeholder|..], dir);
      assert Substitute(s, dir) == [s[0]] + Substitute(t, dir) by {
        assert !OccursAt(s, 0);
        SubstituteFirstChar(s, dir);
      }
      assert Substitute(t, dir) == t[..i - 1] + dir + after by {
        OccursShift(s, i - 1);
        forall k | 0 <= k < i - 1
          ensures !OccursAt(t, k)
        {
          OccursShift(s, k);
        }
        SubstituteFirstOccurrence(t, i - 1, dir);
        assert t[i - 1 + |Placeholder|..] == s[i + |Placeholder|..];
      }
      assert [s[0]] + (t[..i - 1] + dir + after) == s[..i] + dir + after by {
        assert [s[0]] + t[..i - 1] == s[..i];
      }
    }
  }

  /** `{dir}` on its own becomes the directory. */
  lemma SubstitutePlaceholder(dir: string)
    ensures Substitute(Placeholder, dir) == dir
  {
    SubstituteAtStart(Placeholder, dir);
    assert Placeholder[..0] + dir + Substitute(Placeholder[|Placeholder|..], dir) == dir + Substitute([], dir);
  }

  /** Replacing `{dir}` by itself changes nothing. */
  lemma {:induction false} SubstituteIdentity(s: string)
    ensures Substitute(s, Placeholder) == s
    decreases |s|
  {
    if |s| >= |Placeholder| {
      if s[..|Placeholder|] == Placeholder {
        SubstituteIdentity(s[|Placeholder|..]);
        assert s == s[..|Placeholder|] + s[|Placeholder|..];
      } else {
        SubstituteIdentity(s[1..]);
        assert s == [s[0]] + s[1..];
      }
    }
  }

  /** A `{dir}` at the start of `a + b` lies inside `a` when `a` ends in a newline. */
  lemma PlaceholderInsideLine(a: string, b: string)
    requires a != [] && a[|a| - 1] == '\n'
    requires |a + b| >= |Placeholder| && (a + b)[..|Placeholder|] == Placeholder
    ensures |a| > |Placeholder| && a[..|Placeholder|] == Placeholder
    ensures (a + b)[|Placeholder|..] == a[|Placeholder|..] + b
  {
    var s := a + b;
    var n := |Placeholder|;
    assert forall k :: 0 <= k < n ==> s[k] == Placeholder[k] != '\n';
    assert s[|a| - 1] == '\n';
    assert a[..n] == s[..n];
  }

  /** The case of `SubstituteAppendAfterNewline` where the text starts with `{dir}`. */
  lemma AppendAfterPlaceholder(a: string, b: string, dir: string)
    requires a != [] && a[|a| - 1] == '\n'
    requires |a + b| >= |Placeholder| && (a + b)[..|Placeholder|] == Placeholder
    requires |a| > |Placeholder| && a[..|Placeholder|] == Placeholder
    requires (a + b)[|Placeholder|..] == a[|Placeholder|..] + b
    requires Substitute(a[|Placeholder|..] + b, dir) == Substitute(a[|Placeholder|..], dir) + Substitute(b, dir)
    ensures Substitute(a + b, dir) == Substitute(a, dir) + Substitute(b, dir)
  {
  }

  /** A text whose first five characters are not `{dir}` has no occurrence at 0. */
  lemma NotStartingWithPlaceholder(s: string)
    requires |s| >= |Placeholder| && s[..|Placeholder|] != Placeholder
    ensures !OccursAt(s, 0)
  {
    assert s[0..|Placeholder|] == s[..|Placeholder|];
  }

  /** A `{dir}` at the start of `a` would also start `a + b`. */
  lemma NoPlaceholderInPrefix(a: string, b: string)
    requires !OccursAt(a + b, 0)
    ensures !OccursAt(a, 0)
  {
    if |Placeholder| <= |a| {
      assert (a + b)[0..|Placeholder|] == a[0..|Placeholder|];
    }
  }

  /** Substituting `a + b` when it does not start with `{dir}` keeps `a`'s first character. */
  lemma SubstituteConsAppend(a: string, b: string, dir: string)
    requires a != [] && !OccursAt(a + b, 0)
    ensures Substitute(a + b, dir) == [a[0]] + Substitute(a[1..] + b, dir)
  {
    SubstituteFirstChar(a + b, dir);
    assert (a + b)[1..] == a[1..] + b;
  }

  /** The case of `SubstituteAppendAfterNewline` where the text does not start with `{dir}`. */
  lemma AppendAfterOther(a: string, b: string, dir: string)
    requires a != [] && !OccursAt(a + b, 0)
    requires Substitute(a[1..] + b, dir) == Substitute(a[1..], dir) + Substitute(b, dir)
    ensures Substitute(a + b, dir) == Substitute(a, dir) + Substitute(b, dir)
  {
    var x, y := Substitute(a[1..], dir), Substitute(b, dir);
    SubstituteConsAppend(a, b, dir);
    NoPlaceholderInPrefix(a, b);
    SubstituteFirstChar(a, dir);
    assert [a[0]] + (x + y) == ([a[0]] + x) + y;
  }

  /**
   * No `{dir}` can straddle a newline, so substituting a text line by line
   * gives the same as substituting the whole text.
   */
  lemma {:induction false} SubstituteAppendAfterNewline(a: string, b: string, dir: string)
    requires a == [] || a[|a| - 1] == '\n'
    ensures Substitute(a + b, dir) == Substitute(a, dir) + Substitute(b, dir)
    decreases |a|
  {
    var n := |Placeholder|;
    if a == [] {
      assert a + b == b;
    } else if |a + b| < n {
      assert Substitute(a, dir) == a && Substitute(b, dir) == b;
    } else if (a + b)[..n] == Placeholder {
      PlaceholderInsideLine(a, b);
      SubstituteAppendAfterNewline(a[n..], b, dir);
      AppendAfterPlaceholder(a, b, dir);
    } else {
      NotStartingWithPlaceholder(a + b);
      SubstituteAppendAfterNewline(a[1..], b, dir);
      AppendAfterOther(a, b, dir);
    }
  }
}

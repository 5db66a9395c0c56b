/** The email check of submit_form: `re.match(r'^\S+@\S+\.\S+$', email)`.
    The pattern is applied to a Python `str`, so `\S` is "not str.isspace()",
    and `$` (without MULTILINE) matches at the end or just before one final newline. */
module EmailPattern {
  import opened Wrappers

  /** Python's str.isspace(), which is what `\s` means in a str pattern:
      U+0009..U+000D, U+001C..U+0020, U+0085, U+00A0, U+1680, U+2000..U+200A,
      U+2028, U+2029, U+202F, U+205F and U+3000. */
  predicate IsSpace(c: char) {
    ('\t' <= c <= '\r') || ('\U{1C}' <= c <= ' ') || c == '\U{85}' || c == '\U{A0}'
    || c == '\U{1680}' || ('\U{2000}' <= c <= '\U{200A}') || c == '\U{2028}'
    || c == '\U{2029}' || c == '\U{202F}' || c == '\U{205F}' || c == '\U{3000}'
  }

  /** Every character of t matches `\S`. */
  predicate NoSpace(t: string) {
    forall k :: 0 <= k < |t| ==> !IsSpace(t[k])
  }

  /** `\S+@\S+\.\S+` matches the whole of t: t[..i], t[i+1..j] and t[j+1..]
      are the three `\S+` runs, the '@' sits at i and the '.' at j. */
  ghost predicate CoreMatch(t: string) {
    NoSpace(t) &&
    exists i, j :: 0 < i && i + 1 < j && j + 1 < |t| && t[i] == '@' && t[j] == '.'
  }

  /** The strings `re.match(r'^\S+@\S+\.\S+$', s)` accepts: the core pattern
      matches all of s, or all of s but one final newline. */
  ghost predicate EmailSpec(s: string) {
    CoreMatch(s) || (|s| > 0 && s[|s| - 1] == '\n' && CoreMatch(s[..|s| - 1]))
  }

  /** The text `$` lets the pattern match: s without one final newline. */
  function Body(s: string): string {
    if |s| > 0 && s[|s| - 1] == '\n' then s[..|s| - 1] else s
  }

  /** The first position of c in t, if any. */
  function FirstIndex(t: string, c: char): (r: Option<nat>)
    ensures r.Some? ==> r.value < |t| && t[r.value] == c
    ensures r.Some? ==> forall k :: 0 <= k < r.value ==> t[k] != c
    ensures r.None? ==> forall k :: 0 <= k < |t| ==> t[k] != c
  {
    if |t| == 0 then None
    else if t[0] == c then Some(0)
    else
      match FirstIndex(t[1..], c)
      case None => None
      case Some(k) => Some(k + 1)
  }

  /** The last position of c in t, if any. */
  function LastIndex(t: string, c: char): (r: Option<nat>)
    ensures r.Some? ==> r.value < |t| && t[r.value] == c
    ensures r.Some? ==> forall k :: r.value < k < |t| ==> t[k] != c
    ensures r.None? ==> forall k :: 0 <= k < |t| ==> t[k] != c
  {
    if |t| == 0 then None
    else if t[|t| - 1] == c then Some(|t| - 1)
    else LastIndex(t[..|t| - 1], c)
  }

  /** The email check, decided without backtracking: the first '@' after the
      first character and the last '.' before the last character leave the most
      room for the middle run, so the pattern matches iff they are far enough apart. */
  predicate EmailShapeOk(s: string)
    ensures EmailShapeOk(s) ==> 5 <= |s| && '@' in s && '.' in s && !IsSpace(s[0])
  {
    var t := Body(s);
    |t| >= 2 && NoSpace(t) &&
    match (FirstIndex(t[1..], '@'), LastIndex(t[..|t| - 1], '.'))
    case (Some(a), Some(j)) => a + 2 < j
    case _ => false
  }

  /** EmailShapeOk decides exactly the language of the pattern. */
  lemma EmailShapeOkIff(s: string)
    ensures EmailShapeOk(s) <==> EmailSpec(s)
  {
    var t := Body(s);
    if |s| > 0 && s[|s| - 1] == '\n' {
      assert !NoSpace(s) by { assert IsSpace(s[|s| - 1]); }
      assert EmailSpec(s) <==> CoreMatch(t);
    } else {
      assert t == s;
    }
    if CoreMatch(t) {
      var i, j :| 0 < i && i + 1 < j && j + 1 < |t| && t[i] == '@' && t[j] == '.';
      assert t[1..][i - 1] == '@';
      assert t[..|t| - 1][j] == '.';
      assert EmailShapeOk(s);
    }
    if EmailShapeOk(s) {
      var a := FirstIndex(t[1..], '@').value;
      var j := LastIndex(t[..|t| - 1], '.').value;
      assert t[a + 1] == t[1..][a] == '@';
      assert t[j] == t[..|t| - 1][j] == '.';
      assert CoreMatch(t);
    }
  }

  /** A whitespace character anywhere but as the one final newline makes the
      email fail the check. */
  lemma InternalSpaceRejected(s: string, k: nat)
    requires k < |s| && IsSpace(s[k])
    requires !(k == |s| - 1 && s[k] == '\n')
    ensures !EmailShapeOk(s)
  {
    var t := Body(s);
    assert k < |t| && t[k] == s[k];
  }

  /** An email without an '@' that has text before it and a later '.' with
      text between and after fails the check. */
  lemma MissingSeparatorsRejected(s: string)
    requires forall i, j :: 0 < i && i + 1 < j && j + 1 < |Body(s)| ==> Body(s)[i] != '@' || Body(s)[j] != '.'
    ensures !EmailShapeOk(s)
  {
    EmailShapeOkIff(s);
    if |s| > 0 && s[|s| - 1] == '\n' {
      assert !NoSpace(s) by { assert IsSpace(s[|s| - 1]); }
    }
  }

  /** From position i on, t holds only printable ASCII other than the space. */
  predicate VisibleFrom(t: string, i: nat)
    decreases |t| - i
  {
    i >= |t| || ('!' <= t[i] <= '~' && VisibleFrom(t, i + 1))
  }

  lemma {:induction false} VisibleHasNoSpace(t: string, i: nat)
    requires VisibleFrom(t, i)
    ensures forall k :: i <= k < |t| ==> !IsSpace(t[k])
    decreases |t| - i
  {
    if i < |t| {
      VisibleHasNoSpace(t, i + 1);
    }
  }

  /** Worked case: a plain address passes. */
  lemma PlainAddressAccepted()
    ensures EmailShapeOk("jane@example.com")
  {
    var s := "jane@example.com";
    assert VisibleFrom(s, 8);
    VisibleHasNoSpace("jane@example.com", 0);
    assert s[4] == '@' && s[12] == '.';
    EmailShapeOkIff(s);
  }

  /** Worked case: `$` lets one trailing newline through. */
  lemma TrailingNewlineAccepted()
    ensures EmailShapeOk("jane@example.com\n")
  {
    PlainAddressAccepted();
    assert Body("jane@example.com\n") == "jane@example.com";
  }

  /** Worked case: `\S` also matches '@', so a leading '@' is absorbed by the first run. */
  lemma LeadingAtAccepted()
    ensures EmailShapeOk("@a@b.c")
  {
    var t := "@a@b.c";
    VisibleHasNoSpace("@a@b.c", 0);
    assert t[2] == '@' && t[4] == '.';
    EmailShapeOkIff(t);
  }

  /** Worked case: no '@' at all. */
  lemma NoAtRejected()
    ensures !EmailShapeOk("not-an-email")
  {
  }

  /** Worked case: nothing after the '.'. */
  lemma NoTopLevelRejected()
    ensures !EmailShapeOk("jane@example.")
  {
  }

  /** Worked case: an inner space. */
  lemma InnerSpaceExample()
    ensures !EmailShapeOk("ja ne@example.com")
  {
    InternalSpaceRejected("ja ne@example.com", 2);
  }
}

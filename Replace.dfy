/**
 * `String.prototype.replace` with a global regular expression that matches a
 * fixed, non-empty text and a replacement string (sections 22.1.3.19 and
 * 22.1.3.19.1, GetSubstitution, of ECMA-262), and `split`/`join` on the same
 * text as an independent reference for it.
 */
module Replace {
  import opened Wrappers

  /** `pat` occurs in `s` at index `i`. */
  predicate OccursAt(s: string, pat: string, i: int) {
    0 <= i && i + |pat| <= |s| && s[i..i + |pat|] == pat
  }

  /** `s` contains `pat`; for attributes, the CSS `[attr*=pat]` test. */
  predicate Contains(s: string, pat: string) {
    exists i | 0 <= i <= |s| - |pat| :: OccursAt(s, pat, i)
  }

  /** `s.indexOf(pat)`: the first occurrence, if any. */
  function IndexOf(s: string, pat: string): (r: Option<nat>)
    requires pat != []
    ensures r.Some? ==> r.value + |pat| <= |s|
    decreases |s|
  {
    if |s| < |pat| then None
    else if s[..|pat|] == pat then Some(0)
    else match IndexOf(s[1..], pat)
      case None => None
      case Some(j) => Some(j + 1)
  }

  /** `IndexOf` finds the first occurrence, and finds none only when there is none. */
  lemma {:induction false} IndexOfIsFirst(s: string, pat: string)
    requires pat != []
    ensures var r := IndexOf(s, pat);
      && (r.Some? ==> OccursAt(s, pat, r.value) && forall i :: 0 <= i < r.value ==> !OccursAt(s, pat, i))
      && (r.None? ==> !Contains(s, pat))
    decreases |s|
  {
    if |s| >= |pat| && s[..|pat|] != pat {
      IndexOfIsFirst(s[1..], pat);
      forall i | 1 <= i && OccursAt(s, pat, i)
        ensures OccursAt(s[1..], pat, i - 1)
      {
        assert s[1..][i - 1..i - 1 + |pat|] == s[i..i + |pat|];
      }
      if IndexOf(s[1..], pat).Some? {
        var j := IndexOf(s[1..], pat).value;
        assert s[j + 1..j + 1 + |pat|] == s[1..][j..j + |pat|];
      }
    } else if |s| < |pat| {
      assert forall i :: !OccursAt(s, pat, i);
    }
  }

  /**
   * GetSubstitution for a match of length `len` at `pos` in `s` and a pattern
   * without capture groups: `$$` is a dollar sign, `$&` the match, `` $` `` the
   * text before it and `$'` the text after it; any other `$` (including `$1`
   * and `$<`, as there are no groups) stands for itself.
   */
  function Substitute(s: string, pos: nat, len: nat, rep: string): string
    requires pos + len <= |s|
    decreases |rep|
  {
    if rep == [] then []
    else if rep[0] == '$' && |rep| >= 2 && rep[1] == '$' then "$" + Substitute(s, pos, len, rep[2..])
    else if rep[0] == '$' && |rep| >= 2 && rep[1] == '&' then s[pos..pos + len] + Substitute(s, pos, len, rep[2..])
    else if rep[0] == '$' && |rep| >= 2 && rep[1] == '`' then s[..pos] + Substitute(s, pos, len, rep[2..])
    else if rep[0] == '$' && |rep| >= 2 && rep[1] == '\'' then s[pos + len..] + Substitute(s, pos, len, rep[2..])
    else [rep[0]] + Substitute(s, pos, len, rep[1..])
  }

  predicate NoDollar(rep: string) {
    forall i :: 0 <= i < |rep| ==> rep[i] != '$'
  }

  /** A replacement without `$` is inserted literally. */
  lemma {:induction false} LiteralSubstitution(s: string, pos: nat, len: nat, rep: string)
    requires pos + len <= |s| && NoDollar(rep)
    ensures Substitute(s, pos, len, rep) == rep
    decreases |rep|
  {
    if rep != [] {
      assert rep[0] != '$';
      assert NoDollar(rep[1..]) by {
        forall i | 0 <= i < |rep[1..]| ensures rep[1..][i] != '$' { assert rep[1..][i] == rep[i + 1]; }
      }
      LiteralSubstitution(s, pos, len, rep[1..]);
    }
  }

  /**
   * The global replacement from index `i` of `s` on: scanning left to right, each
   * occurrence is replaced and the scan resumes after it, so occurrences never overlap.
   */
  function ReplaceFrom(s: string, pat: string, rep: string, i: nat): string
    requires pat != [] && i <= |s|
    decreases |s| - i
  {
    if i + |pat| > |s| then s[i..]
    else if s[i..i + |pat|] == pat then Substitute(s, i, |pat|, rep) + ReplaceFrom(s, pat, rep, i + |pat|)
    else [s[i]] + ReplaceFrom(s, pat, rep, i + 1)
  }

  /** `s.replace(/pat/g, rep)`. */
  function ReplaceAll(s: string, pat: string, rep: string): string
    requires pat != []
  {
    ReplaceFrom(s, pat, rep, 0)
  }

  /** `s.split(pat)`: the pieces between the occurrences of `pat`, found left to right. */
  function Split(s: string, pat: string): (parts: seq<string>)
    requires pat != []
    ensures |parts| >= 1
    decreases |s|
  {
    match IndexOf(s, pat)
    case None => [s]
    case Some(j) => [s[..j]] + Split(s[j + |pat|..], pat)
  }

  /** `parts.join(sep)`. */
  function Join(parts: seq<string>, sep: string): string {
    if parts == [] then ""
    else if |parts| == 1 then parts[0]
    else parts[0] + sep + Join(parts[1..], sep)
  }

  /** The first occurrence found by `IndexOf` is an occurrence. */
  lemma {:induction false} IndexOfOccurs(s: string, pat: string)
    requires pat != [] && IndexOf(s, pat).Some?
    ensures OccursAt(s, pat, IndexOf(s, pat).value)
    decreases |s|
  {
    if s[..|pat|] != pat {
      IndexOfOccurs(s[1..], pat);
      var j := IndexOf(s[1..], pat).value;
      assert s[j + 1..j + 1 + |pat|] == s[1..][j..j + |pat|];
    }
  }

  /** Splitting on `pat` and joining with `pat` gives back the text. */
  lemma {:induction false} SplitJoinRoundTrip(s: string, pat: string)
    requires pat != []
    ensures Join(Split(s, pat), pat) == s
    decreases |s|
  {
    if IndexOf(s, pat).Some? {
      var j := IndexOf(s, pat).value;
      SplitJoinRoundTrip(s[j + |pat|..], pat);
      SplitJoinAt(s, pat, j);
    } else {
      assert Split(s, pat) == [s];
    }
  }

  /** One step of the round trip: the first piece, the pattern, then the join of the rest. */
  lemma SplitJoinAt(s: string, pat: string, j: nat)
    requires pat != [] && IndexOf(s, pat) == Some(j)
    requires Join(Split(s[j + |pat|..], pat), pat) == s[j + |pat|..]
    ensures Join(Split(s, pat), pat) == s
  {
    IndexOfOccurs(s, pat);
    var rest := s[j + |pat|..];
    assert Split(s, pat) == [s[..j]] + Split(rest, pat);
    JoinCons(s[..j], Split(rest, pat), pat);
    assert s == s[..j] + s[j..j + |pat|] + rest;
  }

  /** No piece of a split contains the text split on. */
  lemma {:induction false} SplitPartsLackPattern(s: string, pat: string)
    requires pat != []
    ensures forall p | p in Split(s, pat) :: !Contains(p, pat)
    decreases |s|
  {
    IndexOfIsFirst(s, pat);
    match IndexOf(s, pat)
    case None =>
    case Some(j) =>
      SplitPartsLackPattern(s[j + |pat|..], pat);
      forall i | OccursAt(s[..j], pat, i)
        ensures false
      {
        assert s[..j][i..i + |pat|] == s[i..i + |pat|];
        assert OccursAt(s, pat, i);
      }
  }

  /** With no occurrence from `i` on, the scan copies the rest of the text. */
  lemma {:induction false} ReplaceFromWithoutMatch(s: string, pat: string, rep: string, i: nat)
    requires pat != [] && i <= |s|
    requires forall j :: i <= j ==> !OccursAt(s, pat, j)
    ensures ReplaceFrom(s, pat, rep, i) == s[i..]
    decreases |s| - i
  {
    if i + |pat| <= |s| {
      assert !OccursAt(s, pat, i);
      ReplaceFromWithoutMatch(s, pat, rep, i + 1);
      assert s[i..] == [s[i]] + s[i + 1..];
    }
  }

  /** A text that does not contain the pattern is returned unchanged, whatever the replacement. */
  lemma ReplaceAllWithoutMatch(s: string, pat: string, rep: string)
    requires pat != [] && !Contains(s, pat)
    ensures ReplaceAll(s, pat, rep) == s
  {
    ReplaceFromWithoutMatch(s, pat, rep, 0);
  }

  /** Joining a piece in front of at least one more. */
  lemma JoinCons(part: string, rest: seq<string>, sep: string)
    requires |rest| >= 1
    ensures Join([part] + rest, sep) == part + sep + Join(rest, sep)
  {
    assert ([part] + rest)[1..] == rest;
  }

  /** A character in front of the first piece is in front of the whole join. */
  lemma JoinPrepend(c: char, parts: seq<string>, sep: string)
    requires |parts| >= 1
    ensures Join([[c] + parts[0]] + parts[1..], sep) == [c] + Join(parts, sep)
  {
    if |parts| > 1 {
      JoinCons([c] + parts[0], parts[1..], sep);
      JoinCons(parts[0], parts[1..], sep);
      assert parts == [parts[0]] + parts[1..];
    }
  }

  /** Splitting a text that starts with the pattern gives an empty first piece. */
  lemma SplitAtMatch(t: string, pat: string)
    requires pat != [] && OccursAt(t, pat, 0)
    ensures Split(t, pat) == [""] + Split(t[|pat|..], pat)
  {
    assert t[..|pat|] == t[0..|pat|];
    assert IndexOf(t, pat) == Some(0);
  }

  /** Past a mismatch at the head, the first occurrence is one further on than in the tail. */
  lemma IndexOfPastMismatch(t: string, pat: string)
    requires pat != [] && |t| >= |pat| && t[..|pat|] != pat
    ensures IndexOf(t, pat) == Shift(IndexOf(t[1..], pat))
  {
  }

  /** An index found in the tail, as an index into the whole text. */
  function Shift(r: Option<nat>): Option<nat> {
    match r
    case None => None
    case Some(j) => Some(j + 1)
  }

  /** Splitting a text that does not start with the pattern puts its first character on the first piece. */
  lemma SplitPastMismatch(t: string, pat: string)
    requires pat != [] && |t| >= |pat| && t[..|pat|] != pat
    ensures var rest := Split(t[1..], pat);
      Split(t, pat) == [[t[0]] + rest[0]] + rest[1..]
  {
    IndexOfPastMismatch(t, pat);
    if IndexOf(t[1..], pat).None? {
      SplitWithoutMatch(t, pat);
    } else {
      SplitPastMismatchAt(t, pat, IndexOf(t[1..], pat).value);
    }
  }

  /** The mismatch case of `SplitPastMismatch` when the tail holds no occurrence. */
  lemma SplitWithoutMatch(t: string, pat: string)
    requires pat != [] && |t| >= 1 && IndexOf(t, pat).None? && IndexOf(t[1..], pat).None?
    ensures var rest := Split(t[1..], pat);
      Split(t, pat) == [[t[0]] + rest[0]] + rest[1..]
  {
    assert Split(t[1..], pat) == [t[1..]];
    assert [t[0]] + t[1..] == t;
  }

  /** The mismatch case of `SplitPastMismatch` when the tail's first occurrence is at `j`. */
  lemma SplitPastMismatchAt(t: string, pat: string, j: nat)
    requires pat != [] && |t| >= 1 && IndexOf(t, pat) == Some(j + 1) && IndexOf(t[1..], pat) == Some(j)
    ensures var rest := Split(t[1..], pat);
      Split(t, pat) == [[t[0]] + rest[0]] + rest[1..]
  {
    var u := t[1..];
    assert t[j + 1 + |pat|..] == u[j + |pat|..];
    assert t[..j + 1] == [t[0]] + u[..j];
    assert Split(u, pat) == [u[..j]] + Split(u[j + |pat|..], pat);
    assert Split(t, pat) == [t[..j + 1]] + Split(t[j + 1 + |pat|..], pat);
  }

  /** At an occurrence, the scan substitutes it and resumes after it. */
  lemma ReplaceAtMatch(s: string, pat: string, rep: string, i: nat)
    requires pat != [] && OccursAt(s, pat, i)
    ensures ReplaceFrom(s, pat, rep, i) == Substitute(s, i, |pat|, rep) + ReplaceFrom(s, pat, rep, i + |pat|)
  {
  }

  /** Elsewhere, the scan copies one character and moves on. */
  lemma ReplacePastMismatch(s: string, pat: string, rep: string, i: nat)
    requires pat != [] && i + |pat| <= |s| && !OccursAt(s, pat, i)
    ensures ReplaceFrom(s, pat, rep, i) == [s[i]] + ReplaceFrom(s, pat, rep, i + 1)
  {
  }

  /** The inductive step at an occurrence: the literal replacement stands for the empty first piece. */
  lemma MatchStep(s: string, pat: string, rep: string, i: nat)
    requires pat != [] && OccursAt(s, pat, i) && NoDollar(rep)
    requires ReplaceFrom(s, pat, rep, i + |pat|) == Join(Split(s[i + |pat|..], pat), rep)
    ensures ReplaceFrom(s, pat, rep, i) == Join(Split(s[i..], pat), rep)
  {
    var t, after := s[i..], s[i + |pat|..];
    assert t[|pat|..] == after;
    assert t[0..|pat|] == pat;
    SplitAtMatch(t, pat);
    LiteralSubstitution(s, i, |pat|, rep);
    JoinCons("", Split(after, pat), rep);
    ReplaceAtMatch(s, pat, rep, i);
  }

  /** The inductive step elsewhere: the copied character joins the first piece. */
  lemma MismatchStep(s: string, pat: string, rep: string, i: nat)
    requires pat != [] && i + |pat| <= |s| && !OccursAt(s, pat, i)
    requires ReplaceFrom(s, pat, rep, i + 1) == Join(Split(s[i + 1..], pat), rep)
    ensures ReplaceFrom(s, pat, rep, i) == Join(Split(s[i..], pat), rep)
  {
    var t, u := s[i..], s[i + 1..];
    assert t[..|pat|] == s[i..i + |pat|];
    assert t[1..] == u && t[0] == s[i];
    SplitPastMismatch(t, pat);
    JoinPrepend(s[i], Split(u, pat), rep);
    ReplacePastMismatch(s, pat, rep, i);
  }

  /** From index `i` on, a literal replacement is the split of the rest joined with it. */
  lemma {:induction false} ReplaceFromIsSplitJoin(s: string, pat: string, rep: string, i: nat)
    requires pat != [] && i <= |s| && NoDollar(rep)
    ensures ReplaceFrom(s, pat, rep, i) == Join(Split(s[i..], pat), rep)
    decreases |s| - i
  {
    if i + |pat| > |s| {
      assert IndexOf(s[i..], pat).None?;
    } else if OccursAt(s, pat, i) {
      ReplaceFromIsSplitJoin(s, pat, rep, i + |pat|);
      MatchStep(s, pat, rep, i);
    } else {
      ReplaceFromIsSplitJoin(s, pat, rep, i + 1);
      MismatchStep(s, pat, rep, i);
    }
  }

  /**
   * A replacement without `$` makes `s.replace(/pat/g, rep)` the same as
   * `s.split(pat).join(rep)`: the pieces between the occurrences, none of which
   * contains the pattern, glued back together with `rep`.
   */
  lemma ReplaceAllIsSplitJoin(s: string, pat: string, rep: string)
    requires pat != [] && NoDollar(rep)
    ensures ReplaceAll(s, pat, rep) == Join(Split(s, pat), rep)
  {
    ReplaceFromIsSplitJoin(s, pat, rep, 0);
    assert s[0..] == s;
  }
}

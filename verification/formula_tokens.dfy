/** KPI references embedded in a parsable formula. A reference is the text
    `R°<name>°<a>°<b>°<c>°` where `<name>` is one or more characters of
    `[A-Za-z_]` and `<a>`, `<b>`, `<c>` are zero or more of them; `°` is the
    degree sign. The resolver finds them with the regular expression
    `R°[A-Za-z_]+°[A-Za-z_]*°[A-Za-z_]*°[A-Za-z_]*°` scanned left to right
    (Python's `re.findall`), and reads `<name>` as the first group. */
module FormulaTokens {
  import opened Wrappers
  import opened Seqs

  const Sep: char := '°'

  predicate IsNameChar(c: char)
  {
    'A' <= c <= 'Z' || 'a' <= c <= 'z' || c == '_'
  }

  predicate AllNameChars(s: string)
  {
    forall i :: 0 <= i < |s| ==> IsNameChar(s[i])
  }

  /** The four groups of one matched reference. */
  datatype Reference = Reference(name: string, second: string, third: string, fourth: string)

  predicate ValidReference(r: Reference)
  {
    |r.name| >= 1 && AllNameChars(r.name) && AllNameChars(r.second)
    && AllNameChars(r.third) && AllNameChars(r.fourth)
  }

  /** The text of a reference followed by the text `rest`. */
  function RenderThen(r: Reference, rest: string): (t: string)
    ensures |t| == 6 + |r.name| + |r.second| + |r.third| + |r.fourth| + |rest|
  {
    ['R', Sep] + (r.name + ([Sep] + (r.second + ([Sep] + (r.third + ([Sep] + (r.fourth + ([Sep] + rest))))))))
  }

  /** The text of a reference as it appears in a formula. */
  function Render(r: Reference): string
  {
    RenderThen(r, [])
  }

  lemma RenderThenIsConcat(r: Reference, rest: string)
    ensures RenderThen(r, rest) == Render(r) + rest
  {
  }

  /** Matching the groups of a reference at the start of s: `groups` holds
      the groups closed so far and `cur` the name characters read into the
      open one. A `°` closes the open group, and closing the fourth completes
      the match: the result is the four groups and the text after that `°`.
      Any other character, or the end of the text, fails the match. Each group
      is a greedy `[A-Za-z_]*`; since `°` is not a name character, giving a
      group back one character never lets a `°` follow it, so the greedy run
      is the only way the pattern can match. */
  function Scan(s: string, groups: seq<string>, cur: string): (r: Option<(seq<string>, string)>)
    requires |groups| <= 3
    ensures r.Some? ==> |r.value.0| == 4 && |r.value.1| < |s|
    decreases |s|
  {
    if s == [] then None
    else if IsNameChar(s[0]) then Scan(s[1..], groups, cur + [s[0]])
    else if s[0] != Sep then None
    else if |groups| == 3 then Some((groups + [cur], s[1..]))
    else Scan(s[1..], groups + [cur], [])
  }

  /** The reference matched at the very start of s, if the pattern matches
      there, and the text after it. The first group must not be empty. */
  function MatchAt(s: string): (m: Option<(Reference, string)>)
    ensures m.Some? ==> |m.value.1| < |s|
  {
    if |s| < 2 || s[0] != 'R' || s[1] != Sep then None
    else match Scan(s[2..], [], [])
      case None => None
      case Some((g, rest)) =>
        if g[0] == [] then None else Some((Reference(g[0], g[1], g[2], g[3]), rest))
  }

  /** The text of closed groups, each followed by its `°`. */
  function Glue(groups: seq<string>): string
  {
    if groups == [] then [] else Glue(groups[..|groups| - 1]) + (groups[|groups| - 1] + [Sep])
  }

  /** Every closed group is a run of name characters. */
  predicate AllGroups(groups: seq<string>)
  {
    forall k :: 0 <= k < |groups| ==> AllNameChars(groups[k])
  }

  /** The groups a scan returns are runs of name characters. */
  lemma {:induction false} ScanGroupsValid(s: string, groups: seq<string>, cur: string)
    requires |groups| <= 3
    requires AllGroups(groups) && AllNameChars(cur)
    requires Scan(s, groups, cur).Some?
    ensures AllGroups(Scan(s, groups, cur).value.0)
    decreases |s|
  {
    if IsNameChar(s[0]) {
      ScanGroupsValid(s[1..], groups, cur + [s[0]]);
    } else if |groups| < 3 {
      ScanGroupsValid(s[1..], groups + [cur], []);
    }
  }

  /** The text a scan reads is the text of the groups it closes, less what
      was read into them before s. */
  lemma {:induction false} ScanText(s: string, groups: seq<string>, cur: string)
    requires |groups| <= 3
    requires Scan(s, groups, cur).Some?
    ensures Glue(groups) + (cur + s) == Glue(Scan(s, groups, cur).value.0) + Scan(s, groups, cur).value.1
    decreases |s|
  {
    ConsTail(s);
    if IsNameChar(s[0]) {
      ScanText(s[1..], groups, cur + [s[0]]);
      assert cur + s == (cur + [s[0]]) + s[1..];
    } else if |groups| == 3 {
      assert (groups + [cur])[..|groups|] == groups;
    } else {
      ScanText(s[1..], groups + [cur], []);
      assert (groups + [cur])[..|groups|] == groups;
    }
  }

  /** The last group closes the text of the groups. */
  lemma GlueLast(groups: seq<string>, t: string)
    requires |groups| >= 1
    ensures Glue(groups) + t == Glue(groups[..|groups| - 1]) + (groups[|groups| - 1] + ([Sep] + t))
  {
    AppendAssoc(Glue(groups[..|groups| - 1]), groups[|groups| - 1], [Sep], t);
  }

  /** The text of four groups, followed by t. */
  lemma GlueFour(g: seq<string>, t: string)
    requires |g| == 4
    ensures Glue(g) + t == g[0] + ([Sep] + (g[1] + ([Sep] + (g[2] + ([Sep] + (g[3] + ([Sep] + t)))))))
  {
    var g1, g2, g3 := g[..1], g[..2], g[..3];
    var t3 := g[3] + ([Sep] + t);
    var t2 := g[2] + ([Sep] + t3);
    var t1 := g[1] + ([Sep] + t2);
    calc {
      Glue(g) + t;
      { GlueLast(g, t); assert g[..3] == g3; }
      Glue(g3) + t3;
      { GlueLast(g3, t3); assert g3[..2] == g2; }
      Glue(g2) + t2;
      { GlueLast(g2, t2); assert g2[..1] == g1; }
      Glue(g1) + t1;
      { GlueLast(g1, t1); assert g1[..0] == []; }
      [] + (g[0] + ([Sep] + t1));
    }
  }

  /** A match is a well-formed reference whose text starts s. */
  lemma MatchAtSound(s: string)
    requires MatchAt(s).Some?
    ensures ValidReference(MatchAt(s).value.0)
    ensures s == RenderThen(MatchAt(s).value.0, MatchAt(s).value.1)
  {
    var g, rest := MatchAtScan(s);
    ScanGroupsValid(s[2..], [], []);
    assert AllNameChars(g[0]) && AllNameChars(g[1]) && AllNameChars(g[2]) && AllNameChars(g[3]);
    ScanText(s[2..], [], []);
    TokenText(s, g, rest);
  }

  /** The scan behind a match. */
  lemma MatchAtScan(s: string) returns (g: seq<string>, rest: string)
    requires MatchAt(s).Some?
    ensures |s| >= 2 && s[0] == 'R' && s[1] == Sep
    ensures Scan(s[2..], [], []) == Some((g, rest)) && |g| == 4
    ensures MatchAt(s) == Some((Reference(g[0], g[1], g[2], g[3]), rest))
  {
    g, rest := Scan(s[2..], [], []).value.0, Scan(s[2..], [], []).value.1;
  }

  /** Text that starts with `R°` and goes on with four closed groups is the
      text of their reference. */
  lemma TokenText(s: string, g: seq<string>, rest: string)
    requires |s| >= 2 && s[0] == 'R' && s[1] == Sep && |g| == 4
    requires Glue([]) + ([] + s[2..]) == Glue(g) + rest
    ensures s == RenderThen(Reference(g[0], g[1], g[2], g[3]), rest)
  {
    GlueFour(g, rest);
    AppendEmpty(s[2..]);
    assert s == s[..2] + s[2..];
    assert s[..2] == ['R', Sep];
  }

  /** Name characters followed by a `°` are read into the open group, which
      the `°` then closes: the scan goes on after the `°`, or stops there
      when the group is the fourth. */
  lemma {:induction false} ScanRun(g: string, t: string, groups: seq<string>, cur: string)
    requires |groups| <= 3 && AllNameChars(g)
    ensures |groups| == 3 ==> Scan(g + ([Sep] + t), groups, cur) == Some((groups + [cur + g], t))
    ensures |groups| < 3 ==> Scan(g + ([Sep] + t), groups, cur) == Scan(t, groups + [cur + g], [])
    decreases |g|
  {
    var s := g + ([Sep] + t);
    if g == [] {
      assert s == [Sep] + t;
      assert cur + g == cur;
    } else {
      TailOfAppend(g, [Sep] + t);
      ScanRun(g[1..], t, groups, cur + [g[0]]);
      assert (cur + [g[0]]) + g[1..] == cur + g;
    }
  }

  /** A whole group with its `°` is read and closed. */
  lemma ScanGroup(g: string, t: string, groups: seq<string>)
    requires |groups| <= 3 && AllNameChars(g)
    ensures |groups| == 3 ==> Scan(g + ([Sep] + t), groups, []) == Some((groups + [g], t))
    ensures |groups| < 3 ==> Scan(g + ([Sep] + t), groups, []) == Scan(t, groups + [g], [])
  {
    ScanRun(g, t, groups, []);
    assert [] + g == g;
  }

  /** A well-formed reference is matched wherever it starts, whatever follows
      it: the match is the reference and the rest of the text. */
  lemma MatchRender(r: Reference, rest: string)
    requires ValidReference(r)
    ensures MatchAt(RenderThen(r, rest)) == Some((r, rest))
  {
    var s := RenderThen(r, rest);
    var u4 := r.fourth + ([Sep] + rest);
    var u3 := r.third + ([Sep] + u4);
    var u2 := r.second + ([Sep] + u3);
    var u1 := r.name + ([Sep] + u2);
    assert s == ['R', Sep] + u1;
    PrefixOfAppend(['R', Sep], u1);
    ScanGroup(r.name, u2, []);
    assert [] + [r.name] == [r.name];
    ScanGroup(r.second, u3, [r.name]);
    assert [r.name] + [r.second] == [r.name, r.second];
    ScanGroup(r.third, u4, [r.name, r.second]);
    assert [r.name, r.second] + [r.third] == [r.name, r.second, r.third];
    ScanGroup(r.fourth, rest, [r.name, r.second, r.third]);
    assert [r.name, r.second, r.third] + [r.fourth] == [r.name, r.second, r.third, r.fourth];
  }

  /** `re.findall` of the reference pattern over a formula: every
      non-overlapping match, left to right. */
  function FindAll(s: string): (refs: seq<Reference>)
    ensures forall r :: r in refs ==> ValidReference(r)
    decreases |s|
  {
    if s == [] then []
    else match MatchAt(s)
      case Some((r, rest)) =>
        MatchAtSound(s);
        [r] + FindAll(rest)
      case None => FindAll(s[1..])
  }

  /** No position of s before k starts a match. */
  ghost predicate NoMatchBefore(s: string, k: nat)
  {
    forall i :: 0 <= i < k && i <= |s| ==> MatchAt(s[i..]).None?
  }

  /** A match starting at position k splits the formula into the text before
      k, the token and the rest. */
  lemma MatchSplit(s: string, k: nat)
    requires k < |s| && MatchAt(s[k..]).Some?
    ensures s == s[..k] + RenderThen(MatchAt(s[k..]).value.0, MatchAt(s[k..]).value.1)
  {
    MatchAtSound(s[k..]);
    assert s == s[..k] + s[k..];
  }

  /** A position that does not start a match, before text with no match in
      its first k positions, leaves none in the first k + 1. */
  lemma NoMatchShift(s: string, k: nat)
    requires s != [] && MatchAt(s).None? && NoMatchBefore(s[1..], k)
    ensures NoMatchBefore(s, k + 1)
  {
    forall i | 0 <= i < k + 1 && i <= |s| ensures MatchAt(s[i..]).None? {
      if i == 0 {
        assert s[i..] == s;
      } else {
        assert s[i..] == s[1..][i - 1..];
      }
    }
  }

  /** Like `re.findall`, the scan finds nothing exactly when no position of
      the formula starts a match. */
  lemma {:induction false} FindAllEmpty(s: string)
    ensures FindAll(s) == [] <==> forall i :: 0 <= i <= |s| ==> MatchAt(s[i..]).None?
    decreases |s|
  {
    if s != [] {
      assert s[0..] == s;
      if MatchAt(s).None? {
        FindAllEmpty(s[1..]);
        if FindAll(s[1..]) == [] {
          NoMatchShift(s, |s[1..]| + 1);
        } else {
          var i :| 0 <= i <= |s[1..]| && MatchAt(s[1..][i..]).Some?;
          assert s[i + 1..] == s[1..][i..];
        }
      }
    }
  }

  /** Position k is where the scan of s takes its first match: no earlier
      position starts a match, s is the text before k followed by the match's
      token and the rest, and the scan's matches are that token followed by
      the matches of the rest. */
  ghost predicate FirstMatchAt(s: string, k: nat)
  {
    && k < |s| && NoMatchBefore(s, k) && MatchAt(s[k..]).Some?
    && s == s[..k] + RenderThen(MatchAt(s[k..]).value.0, MatchAt(s[k..]).value.1)
    && FindAll(s) == [MatchAt(s[k..]).value.0] + FindAll(MatchAt(s[k..]).value.1)
  }

  /** Passing over a position that starts no match moves the first match one
      place to the right. */
  lemma FirstMatchShift(s: string, k: nat)
    requires s != [] && MatchAt(s).None? && FirstMatchAt(s[1..], k)
    ensures FirstMatchAt(s, k + 1)
  {
    assert s[k + 1..] == s[1..][k..];
    NoMatchShift(s, k);
    MatchSplit(s, k + 1);
  }

  /** The scan's first match is the one at the leftmost position that starts
      a match (see `FirstMatchAt`). */
  lemma {:induction false} FindAllFirstMatch(s: string)
    ensures FindAll(s) != [] ==> exists k :: FirstMatchAt(s, k)
    decreases |s|
  {
    if s != [] {
      assert s[0..] == s;
      if MatchAt(s).Some? {
        MatchSplit(s, 0);
        assert FirstMatchAt(s, 0);
      } else {
        FindAllFirstMatch(s[1..]);
        if FindAll(s[1..]) != [] {
          var k :| FirstMatchAt(s[1..], k);
          FirstMatchShift(s, k);
        }
      }
    }
  }

  /** The first groups of a sequence of matches. */
  function Names(refs: seq<Reference>): seq<string>
  {
    if refs == [] then [] else [refs[0].name] + Names(refs[1..])
  }

  /** The referenced names of a formula, in order of occurrence. */
  function ReferencedNames(s: string): seq<string>
  {
    Names(FindAll(s))
  }

  /** A reference at the start of a formula is its first match; scanning
      resumes right after it. */
  lemma FindAllRender(r: Reference, rest: string)
    requires ValidReference(r)
    ensures FindAll(RenderThen(r, rest)) == [r] + FindAll(rest)
  {
    MatchRender(r, rest);
  }

  /** Text without the letter `R` holds no match, and scanning passes over it. */
  lemma {:induction false} FindAllSkip(p: string, s: string)
    requires forall i :: 0 <= i < |p| ==> p[i] != 'R'
    ensures FindAll(p + s) == FindAll(s)
    decreases |p|
  {
    if p != [] {
      TailOfAppend(p, s);
      FindAllSkip(p[1..], s);
    } else {
      AppendEmpty(s);
    }
  }

  /** A reference at the start of a formula contributes its name first. */
  lemma ReferencedNamesRender(r: Reference, rest: string)
    requires ValidReference(r)
    ensures ReferencedNames(RenderThen(r, rest)) == [r.name] + ReferencedNames(rest)
  {
    FindAllRender(r, rest);
    assert ([r] + FindAll(rest))[1..] == FindAll(rest);
  }

  /** Text without the letter `R` contributes no name. */
  lemma ReferencedNamesSkip(p: string, s: string)
    requires forall i :: 0 <= i < |p| ==> p[i] != 'R'
    ensures ReferencedNames(p + s) == ReferencedNames(s)
  {
    FindAllSkip(p, s);
  }
}

/** The regular expressions the command handlers use for their options,
    `/-n\s+(\d+)/`, `/-v\s+(\S+)/` and `/-l\s+(\S+)/`: a literal flag, one or
    more white-space characters, then a run of characters of one class that
    is captured.  `FirstMatch` is what `String.prototype.match` (and the
    first replacement of `replace`) finds: the leftmost match, and at that
    position the greedy one.  `Matches` is the plain language of the pattern,
    and `FirstMatchIsLeftmostLongest` ties the two together. */
module FlagPattern {
  import opened Wrappers
  import opened JsString

  /** The class of the captured run: `\d` or `\S`. */
  datatype RunClass = Digits | NonSpace

  predicate InClass(c: char, k: RunClass) {
    match k
    case Digits => IsDigit(c)
    case NonSpace => !IsSpace(c)
  }

  predicate AllInClass(s: string, k: RunClass) {
    forall q :: 0 <= q < |s| ==> InClass(s[q], k)
  }

  /** `t` is a word of the pattern `flag\s+(class+)`. */
  ghost predicate Matches(t: string, flag: string, k: RunClass) {
    |flag| < |t| && t[..|flag|] == flag
    && exists g :: |flag| < g < |t| && AllSpace(t[|flag|..g]) && AllInClass(t[g..], k)
  }

  /** A match of `s[start..end]`, whose captured group is `s[group..end]`. */
  datatype Span = Span(start: nat, group: nat, end: nat)

  /** The length of the run of white space in `s` from position `i`. */
  function SpaceRun(s: string, i: nat): (n: nat)
    requires i <= |s|
    ensures i + n <= |s| && forall q :: i <= q < i + n ==> IsSpace(s[q])
    ensures AllSpace(s[i..i + n])
    ensures i + n == |s| || !IsSpace(s[i + n])
    decreases |s| - i
  {
    if i < |s| && IsSpace(s[i]) then 1 + SpaceRun(s, i + 1) else 0
  }

  /** The length of the run of class-`k` characters in `s` from position `i`. */
  function ClassRun(s: string, i: nat, k: RunClass): (n: nat)
    requires i <= |s|
    ensures i + n <= |s| && forall q :: i <= q < i + n ==> InClass(s[q], k)
    ensures AllInClass(s[i..i + n], k)
    ensures i + n == |s| || !InClass(s[i + n], k)
    decreases |s| - i
  {
    if i < |s| && InClass(s[i], k) then 1 + ClassRun(s, i + 1, k) else 0
  }

  /** The greedy match at position `i`, if the pattern matches there. */
  function MatchAt(s: string, flag: string, k: RunClass, i: nat): Option<Span>
    requires i <= |s|
  {
    if i + |flag| <= |s| && s[i..i + |flag|] == flag then
      var ws := SpaceRun(s, i + |flag|);
      var g := i + |flag| + ws;
      var run := ClassRun(s, g, k);
      if ws > 0 && run > 0 then Some(Span(i, g, g + run)) else None
    else None
  }

  function FirstMatchFrom(s: string, flag: string, k: RunClass, i: nat): Option<Span>
    requires i <= |s|
    decreases |s| - i
  {
    match MatchAt(s, flag, k, i)
    case Some(m) => Some(m)
    case None => if i == |s| then None else FirstMatchFrom(s, flag, k, i + 1)
  }

  /** Where the pattern does not match, the search goes on to the next position. */
  lemma SkipPosition(s: string, flag: string, k: RunClass, i: nat)
    requires i < |s| && MatchAt(s, flag, k, i).None?
    ensures FirstMatchFrom(s, flag, k, i) == FirstMatchFrom(s, flag, k, i + 1)
  {
  }

  /** Where the pattern matches, the search stops there. */
  lemma FoundAt(s: string, flag: string, k: RunClass, i: nat, m: Span)
    requires i <= |s| && MatchAt(s, flag, k, i) == Some(m)
    ensures FirstMatchFrom(s, flag, k, i) == Some(m)
  {
  }

  /** A position where some character differs from the flag's is skipped. */
  lemma SkipMismatch(s: string, flag: string, k: RunClass, i: nat, j: nat)
    requires i < |s| && j < |flag| && i + j < |s| && s[i + j] != flag[j]
    ensures FirstMatchFrom(s, flag, k, i) == FirstMatchFrom(s, flag, k, i + 1)
  {
    if i + |flag| <= |s| {
      assert s[i..i + |flag|][j] == s[i + j];
    }
  }

  /** `s.match(/flag\s+(class+)/)`. */
  function FirstMatch(s: string, flag: string, k: RunClass): Option<Span> {
    FirstMatchFrom(s, flag, k, 0)
  }

  /** `s.replace(/flag\s+class+/, '')`: the first match cut out, or `s` itself. */
  function RemoveFirstMatch(s: string, flag: string, k: RunClass): (r: string)
    ensures FirstMatch(s, flag, k).None? ==> r == s
    ensures FirstMatch(s, flag, k).Some? ==>
              var m := FirstMatch(s, flag, k).value;
              m.start <= m.end <= |s| && r == s[..m.start] + s[m.end..]
  {
    match FirstMatch(s, flag, k)
    case None => s
    case Some(m) =>
      FirstMatchInRange(s, flag, k, 0);
      s[..m.start] + s[m.end..]
  }

  lemma {:induction false} FirstMatchInRange(s: string, flag: string, k: RunClass, i: nat)
    requires i <= |s|
    ensures FirstMatchFrom(s, flag, k, i).Some? ==>
              var m := FirstMatchFrom(s, flag, k, i).value;
              i <= m.start && m.start + |flag| < m.group < m.end <= |s|
    decreases |s| - i
  {
    if MatchAt(s, flag, k, i).None? && i < |s| {
      FirstMatchInRange(s, flag, k, i + 1);
    }
  }

  // ---------------------------------------------------------------------
  // Matching at one position

  /** The greedy match at `i` is a word of the pattern, with the captured
      group exactly its class run. */
  lemma MatchAtSound(s: string, flag: string, k: RunClass, i: nat)
    requires i <= |s| && MatchAt(s, flag, k, i).Some?
    ensures var m := MatchAt(s, flag, k, i).value;
            m.start == i && i + |flag| < m.group < m.end <= |s|
            && AllSpace(s[i + |flag|..m.group]) && AllInClass(s[m.group..m.end], k)
            && Matches(s[i..m.end], flag, k)
  {
    var m := MatchAt(s, flag, k, i).value;
    var t := s[i..m.end];
    var g := m.group - i;
    assert t[..|flag|] == s[i..i + |flag|];
    assert t[|flag|..g] == s[i + |flag|..m.group];
    assert t[g..] == s[m.group..m.end];
  }

  /** Every word of the pattern that starts at `i` is covered by the greedy
      match at `i`. */
  lemma MatchAtComplete(s: string, flag: string, k: RunClass, i: nat, j: nat)
    requires i <= j <= |s| && Matches(s[i..j], flag, k)
    ensures MatchAt(s, flag, k, i).Some? && j <= MatchAt(s, flag, k, i).value.end
  {
    var t := s[i..j];
    var g :| |flag| < g < |t| && AllSpace(t[|flag|..g]) && AllInClass(t[g..], k);
    SliceOfSlice(s, i, j, 0, |flag|);
    SliceOfSlice(s, i, j, |flag|, g);
    SliceOfSlice(s, i, j, g, |t|);
    MatchAtFromParts(s, flag, k, i, i + g, j);
  }

  lemma MatchAtFromParts(s: string, flag: string, k: RunClass, i: nat, g: nat, j: nat)
    requires i + |flag| < g < j <= |s| && s[i..i + |flag|] == flag
    requires AllSpace(s[i + |flag|..g]) && AllInClass(s[g..j], k)
    ensures MatchAt(s, flag, k, i).Some? && j <= MatchAt(s, flag, k, i).value.end
  {
    SpacesThenClass(s, i + |flag|, g, j, k);
    MatchAtIs(s, flag, k, i);
  }

  lemma MatchAtIs(s: string, flag: string, k: RunClass, i: nat)
    requires i + |flag| <= |s| && s[i..i + |flag|] == flag
    requires SpaceRun(s, i + |flag|) > 0
    requires ClassRun(s, i + |flag| + SpaceRun(s, i + |flag|), k) > 0
    ensures MatchAt(s, flag, k, i) == Some(Span(i, i + |flag| + SpaceRun(s, i + |flag|),
              i + |flag| + SpaceRun(s, i + |flag|) + ClassRun(s, i + |flag| + SpaceRun(s, i + |flag|), k)))
  {
  }

  /** Where `s[a..b]` is white space and `s[b..c]` a non-empty class run, the
      white-space run from `a` ends exactly at `b` and the class run from `b`
      reaches `c`. */
  lemma SpacesThenClass(s: string, a: nat, b: nat, c: nat, k: RunClass)
    requires a < b < c <= |s|
    requires AllSpace(s[a..b]) && AllInClass(s[b..c], k)
    ensures a + SpaceRun(s, a) == b
    ensures b + ClassRun(s, b, k) >= c
  {
    forall q | a <= q < b ensures IsSpace(s[q]) {
      assert s[a..b][q - a] == s[q];
    }
    forall q | b <= q < c ensures InClass(s[q], k) {
      assert s[b..c][q - b] == s[q];
    }
    SpacesThenClassAt(s, a, b, c, k);
  }

  /** The same, with the runs given position by position. */
  lemma SpacesThenClassAt(s: string, a: nat, b: nat, c: nat, k: RunClass)
    requires a < b < c <= |s|
    requires forall q :: a <= q < b ==> IsSpace(s[q])
    requires forall q :: b <= q < c ==> InClass(s[q], k)
    ensures a + SpaceRun(s, a) == b
    ensures b + ClassRun(s, b, k) >= c
  {
    SpaceRunAtLeast(s, a, b);
    assert !IsSpace(s[b]) by {
      assert InClass(s[b], k);
      if k == Digits { DigitIsNotSpace(s[b]); }
    }
    ClassRunAtLeast(s, b, c, k);
  }

  lemma {:induction false} SpaceRunAtLeast(s: string, i: nat, j: nat)
    requires i <= j <= |s|
    requires forall q :: i <= q < j ==> IsSpace(s[q])
    ensures i + SpaceRun(s, i) >= j
    decreases |s| - i
  {
    if i < j { SpaceRunAtLeast(s, i + 1, j); }
  }

  lemma {:induction false} ClassRunAtLeast(s: string, i: nat, j: nat, k: RunClass)
    requires i <= j <= |s|
    requires forall q :: i <= q < j ==> InClass(s[q], k)
    ensures i + ClassRun(s, i, k) >= j
    decreases |s| - i
  {
    if i < j { ClassRunAtLeast(s, i + 1, j, k); }
  }

  // ---------------------------------------------------------------------
  // The first match

  lemma FirstMatchFromSpec(s: string, flag: string, k: RunClass, i: nat)
    requires i <= |s|
    ensures FirstMatchFrom(s, flag, k, i).Some? ==>
              var m := FirstMatchFrom(s, flag, k, i).value;
              i <= m.start <= |s| && MatchAt(s, flag, k, m.start) == Some(m)
              && forall p :: i <= p < m.start ==> MatchAt(s, flag, k, p).None?
    ensures FirstMatchFrom(s, flag, k, i).None? ==>
              forall p :: i <= p <= |s| ==> MatchAt(s, flag, k, p).None?
  {
    if FirstMatchFrom(s, flag, k, i).Some? {
      FirstMatchFromSome(s, flag, k, i);
    } else {
      FirstMatchFromNone(s, flag, k, i);
    }
  }

  /** A match found from `i` is a match, and none starts before it. */
  lemma {:induction false} FirstMatchFromSome(s: string, flag: string, k: RunClass, i: nat)
    requires i <= |s| && FirstMatchFrom(s, flag, k, i).Some?
    ensures var m := FirstMatchFrom(s, flag, k, i).value;
            i <= m.start <= |s| && MatchAt(s, flag, k, m.start) == Some(m)
            && forall p :: i <= p < m.start ==> MatchAt(s, flag, k, p).None?
    decreases |s| - i
  {
    if MatchAt(s, flag, k, i).None? {
      FirstMatchFromSome(s, flag, k, i + 1);
      var m := FirstMatchFrom(s, flag, k, i + 1).value;
      forall p | i <= p < m.start ensures MatchAt(s, flag, k, p).None? {
        if p > i { }
      }
    }
  }

  /** No match from `i` on: no position from `i` on matches. */
  lemma {:induction false} FirstMatchFromNone(s: string, flag: string, k: RunClass, i: nat)
    requires i <= |s| && FirstMatchFrom(s, flag, k, i).None?
    ensures forall p :: i <= p <= |s| ==> MatchAt(s, flag, k, p).None?
    decreases |s| - i
  {
    if i < |s| {
      FirstMatchFromNone(s, flag, k, i + 1);
      forall p | i <= p <= |s| ensures MatchAt(s, flag, k, p).None? {
        if p > i { }
      }
    }
  }

  /** No slice of `s` is a word of the pattern. */
  ghost predicate NoMatch(s: string, flag: string, k: RunClass) {
    forall i, j :: 0 <= i <= j <= |s| ==> !Matches(s[i..j], flag, k)
  }

  /** `m` is the leftmost word of the pattern in `s`, and the longest one at
      its start, with its white space and its captured group where `m` says. */
  ghost predicate IsFirst(s: string, flag: string, k: RunClass, m: Span) {
    m.start + |flag| < m.group < m.end <= |s|
    && AllSpace(s[m.start + |flag|..m.group]) && AllInClass(s[m.group..m.end], k)
    && Matches(s[m.start..m.end], flag, k)
    && (forall i, j :: 0 <= i < m.start && i <= j <= |s| ==> !Matches(s[i..j], flag, k))
    && (forall j :: m.end < j <= |s| ==> !Matches(s[m.start..j], flag, k))
  }

  /** What the regex engine finds is the leftmost word of the pattern in `s`,
      and the longest one at that position; it finds nothing exactly when no
      slice of `s` is a word of the pattern. */
  lemma FirstMatchIsLeftmostLongest(s: string, flag: string, k: RunClass)
    ensures FirstMatch(s, flag, k).Some? ==> IsFirst(s, flag, k, FirstMatch(s, flag, k).value)
    ensures FirstMatch(s, flag, k).None? <==> NoMatch(s, flag, k)
  {
    FirstMatchFromSpec(s, flag, k, 0);
    if FirstMatch(s, flag, k).Some? {
      var m := FirstMatch(s, flag, k).value;
      FoundIsFirst(s, flag, k, m);
      assert !NoMatch(s, flag, k) by { assert Matches(s[m.start..m.end], flag, k); }
    } else {
      NoneIsNoMatch(s, flag, k);
    }
  }

  /** A greedy match with no match at any earlier position is the first. */
  lemma FoundIsFirst(s: string, flag: string, k: RunClass, m: Span)
    requires m.start <= |s| && MatchAt(s, flag, k, m.start) == Some(m)
    requires forall p :: 0 <= p < m.start ==> MatchAt(s, flag, k, p).None?
    ensures IsFirst(s, flag, k, m)
  {
    MatchAtSound(s, flag, k, m.start);
    forall i, j | 0 <= i < m.start && i <= j <= |s|
      ensures !Matches(s[i..j], flag, k)
    {
      if Matches(s[i..j], flag, k) { MatchAtComplete(s, flag, k, i, j); }
    }
    forall j | m.end < j <= |s|
      ensures !Matches(s[m.start..j], flag, k)
    {
      if Matches(s[m.start..j], flag, k) { MatchAtComplete(s, flag, k, m.start, j); }
    }
  }

  /** With no greedy match anywhere, no slice is a word of the pattern. */
  lemma NoneIsNoMatch(s: string, flag: string, k: RunClass)
    requires forall p :: 0 <= p <= |s| ==> MatchAt(s, flag, k, p).None?
    ensures NoMatch(s, flag, k)
  {
    forall i, j | 0 <= i <= j <= |s|
      ensures !Matches(s[i..j], flag, k)
    {
      if Matches(s[i..j], flag, k) { MatchAtComplete(s, flag, k, i, j); }
    }
  }

  /** The group captured by the first match. */
  function Captured(s: string, flag: string, k: RunClass, m: Span): (g: string)
    requires FirstMatch(s, flag, k) == Some(m)
    ensures m.start + |flag| < m.group < m.end <= |s| && g == s[m.group..m.end]
    ensures g != [] && AllInClass(g, k)
  {
    FirstMatchInRange(s, flag, k, 0);
    FirstMatchFromSpec(s, flag, k, 0);
    MatchAtSound(s, flag, k, m.start);
    s[m.group..m.end]
  }
}

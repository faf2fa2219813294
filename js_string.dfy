/** The few JavaScript string operations the bot relies on, over sequences of
    characters: `trim`, ASCII `toLowerCase`, `indexOf`/`includes`,
    `substring(n)`, `parseInt` on a run of decimal digits, number-to-string,
    `Array.prototype.join`, and the truthiness of an optional string. */
module JsString {
  import opened Wrappers

  /** An id as JavaScript holds it: a string, or `undefined`/`null`. */
  type Id = Option<string>

  // ---------------------------------------------------------------------
  // White space and trim

  /** White space as `String.prototype.trim` and the regex class `\s` see it. */
  predicate IsSpace(c: char) {
    c == ' ' || c == '\t' || c == '\n' || c == '\r' || c == '\U{000B}' || c == '\U{000C}'
    || c == '\U{00A0}' || c == '\U{1680}' || ('\U{2000}' <= c <= '\U{200A}')
    || c == '\U{2028}' || c == '\U{2029}' || c == '\U{202F}' || c == '\U{205F}'
    || c == '\U{3000}' || c == '\U{FEFF}'
  }

  predicate AllSpace(s: string) {
    forall k :: 0 <= k < |s| ==> IsSpace(s[k])
  }

  /** No white space at either end (what `trim` leaves). */
  predicate Trimmed(s: string) {
    s == [] || (!IsSpace(s[0]) && !IsSpace(s[|s| - 1]))
  }

  function TrimStart(s: string): (r: string)
    ensures |r| <= |s| && r == s[|s| - |r|..]
    ensures forall q :: 0 <= q < |s| - |r| ==> IsSpace(s[q])
    ensures r == [] || !IsSpace(r[0])
  {
    if |s| > 0 && IsSpace(s[0]) then TrimStart(s[1..]) else s
  }

  function TrimEnd(s: string): (r: string)
    ensures |r| <= |s| && r == s[..|r|]
    ensures forall q :: |r| <= q < |s| ==> IsSpace(s[q])
    ensures r == [] || !IsSpace(r[|r| - 1])
  {
    if |s| > 0 && IsSpace(s[|s| - 1]) then TrimEnd(s[..|s| - 1]) else s
  }

  /** How many white-space characters `trim` drops at the start of `s`. */
  function Lead(s: string): nat {
    |s| - |TrimStart(s)|
  }

  /** `s.trim()`: white space dropped at both ends. */
  function Trim(s: string): (r: string)
    ensures Trimmed(r) && |r| <= |s|
  {
    var a := TrimStart(s);
    var r := TrimEnd(a);
    assert r != [] ==> r[0] == a[0];
    r
  }

  /** `trim` keeps the slice of `s` that starts at `Lead(s)`, and what it
      drops on either side is white space. */
  lemma TrimSlices(s: string)
    ensures var r := Trim(s);
            Lead(s) + |r| <= |s| && s[Lead(s)..Lead(s) + |r|] == r
            && AllSpace(s[..Lead(s)]) && AllSpace(s[Lead(s) + |r|..])
  {
    var a := TrimStart(s);
    var r := TrimEnd(a);
    assert Lead(s) == |s| - |a| && Trim(s) == r;
    SlicesOfTrim(s, a, r);
  }

  /** The same facts, for any `a` and `r` cut from `s` as `trim` cuts them. */
  lemma SlicesOfTrim(s: string, a: string, r: string)
    requires |a| <= |s| && a == s[|s| - |a|..]
    requires forall q :: 0 <= q < |s| - |a| ==> IsSpace(s[q])
    requires |r| <= |a| && r == a[..|r|]
    requires forall q :: |r| <= q < |a| ==> IsSpace(a[q])
    ensures var i := |s| - |a|;
            i + |r| <= |s| && s[i..i + |r|] == r
            && AllSpace(s[..i]) && AllSpace(s[i + |r|..])
  {
    var i := |s| - |a|;
    assert s[i..i + |r|] == r by { assert s[i..i + |r|] == a[..|r|]; }
    forall q | i + |r| <= q < |s| ensures IsSpace(s[q]) { assert s[q] == a[q - i]; }
  }

  lemma TrimStartOfTrimmed(s: string)
    requires s == [] || !IsSpace(s[0])
    ensures TrimStart(s) == s
  {
  }

  lemma TrimEndOfTrimmed(s: string)
    requires s == [] || !IsSpace(s[|s| - 1])
    ensures TrimEnd(s) == s
  {
  }

  /** Trimming white space around a trimmed word gives back the word. */
  lemma {:induction false} TrimAround(a: string, w: string, b: string)
    requires AllSpace(a) && AllSpace(b) && Trimmed(w)
    ensures Trim(a + w + b) == w
  {
    assert a + w + b == a + (w + b);
    assert (w + b)[..|w|] == w;
    TrimStartAround(a, w + b, w);
    if w == [] {
      assert TrimStart(a + w + b) == [];
    } else {
      assert TrimStart(a + w + b) == w + b;
      TrimEndAround(w, b);
    }
  }

  lemma {:induction false} TrimStartAround(a: string, t: string, w: string)
    requires AllSpace(a) && Trimmed(w) && |w| <= |t| && t[..|w|] == w
    requires w == [] ==> AllSpace(t)
    ensures TrimStart(a + t) == (if w == [] then [] else t)
    decreases |a|
  {
    if a == [] {
      assert a + t == t;
      if w == [] { TrimStartAllSpace(t); } else { assert t[0] == w[0]; }
    } else {
      assert (a + t)[1..] == a[1..] + t;
      TrimStartAround(a[1..], t, w);
    }
  }

  lemma {:induction false} TrimStartAllSpace(t: string)
    requires AllSpace(t)
    ensures TrimStart(t) == []
    decreases |t|
  {
    if t != [] { TrimStartAllSpace(t[1..]); }
  }

  lemma {:induction false} TrimEndAround(w: string, b: string)
    requires AllSpace(b) && Trimmed(w)
    ensures TrimEnd(w + b) == w
    decreases |b|
  {
    if b == [] {
      assert w + b == w;
    } else {
      assert (w + b)[..|w + b| - 1] == w + b[..|b| - 1];
      TrimEndAround(w, b[..|b| - 1]);
    }
  }

  /** A string with no white space at its ends is its own trim. */
  lemma TrimOfTrimmed(s: string)
    requires Trimmed(s)
    ensures Trim(s) == s
  {
    TrimAround([], s, []);
    assert [] + s + [] == s;
  }

  /** Trimming twice is trimming once. */
  lemma TrimIdempotent(s: string)
    ensures Trim(Trim(s)) == Trim(s)
  {
    TrimAround([], Trim(s), []);
    assert [] + Trim(s) + [] == Trim(s);
  }

  /** A string that starts with a non-space character keeps its start under
      `trim`, at least up to its last non-space character `p`. */
  lemma TrimKeepsPrefix(s: string, p: nat)
    requires p < |s| && !IsSpace(s[0]) && !IsSpace(s[p])
    ensures p < |Trim(s)| && Trim(s) == s[..|Trim(s)|]
  {
    TrimStartOfTrimmed(s);
  }

  lemma SplitThree(s: string, i: nat, j: nat)
    requires i <= j <= |s|
    ensures s == s[..i] + s[i..j] + s[j..]
  {
    assert s[..j] == s[..i] + s[i..j];
    assert s == s[..j] + s[j..];
  }

  lemma SliceOfSlice(s: string, i: nat, j: nat, a: nat, b: nat)
    requires i <= j <= |s| && a <= b <= j - i
    ensures s[i..j][a..b] == s[i + a..i + b]
  {
    forall x | 0 <= x < b - a ensures s[i..j][a..b][x] == s[i + a..i + b][x] { }
  }

  // ---------------------------------------------------------------------
  // Lower case (ASCII)

  function LowerChar(c: char): char {
    if 'A' <= c <= 'Z' then (c as int + 32) as char else c
  }

  /** `s.toLowerCase()`, restricted to the ASCII letters. */
  function Lower(s: string): (r: string)
    ensures |r| == |s|
    ensures forall k :: 0 <= k < |s| ==> r[k] == LowerChar(s[k])
  {
    seq(|s|, k requires 0 <= k < |s| => LowerChar(s[k]))
  }

  lemma LowerAppend(a: string, b: string)
    ensures Lower(a + b) == Lower(a) + Lower(b)
  {
  }

  lemma LowerSlice(s: string, i: nat, j: nat)
    requires i <= j <= |s|
    ensures Lower(s[i..j]) == Lower(s)[i..j]
  {
  }

  lemma LowerIdempotent(s: string)
    ensures Lower(Lower(s)) == Lower(s)
  {
  }

  /** Lower-casing neither creates nor removes white space. */
  lemma LowerKeepsSpace(s: string)
    ensures AllSpace(s) <==> AllSpace(Lower(s))
    ensures Trimmed(s) <==> Trimmed(Lower(s))
  {
  }

  /** Trimming and lower-casing commute. */
  lemma TrimLower(s: string)
    ensures Trim(Lower(s)) == Lower(Trim(s))
  {
    var t := Trim(s);
    var i := Lead(s);
    TrimSlices(s);
    SplitThree(s, i, i + |t|);
    LowerTrimAround(s, s[..i], t, s[i + |t|..]);
  }

  lemma LowerTrimAround(s: string, a: string, t: string, b: string)
    requires s == a + t + b && AllSpace(a) && AllSpace(b) && Trimmed(t)
    ensures Trim(Lower(s)) == Lower(t)
  {
    LowerOfThree(a, t, b);
    LowerKeepsSpace(a);
    LowerKeepsSpace(t);
    LowerKeepsSpace(b);
    TrimAround(Lower(a), Lower(t), Lower(b));
  }

  lemma LowerOfThree(a: string, t: string, b: string)
    ensures Lower(a + t + b) == Lower(a) + Lower(t) + Lower(b)
  {
    LowerAppend(a + t, b);
    LowerAppend(a, t);
  }

  // ---------------------------------------------------------------------
  // Searching

  predicate OccursAt(s: string, p: string, i: nat) {
    i + |p| <= |s| && s[i..i + |p|] == p
  }

  /** In `a + b`, `a` is a prefix and `b` occurs right after it. */
  lemma AppendLayout(a: string, b: string)
    requires b != []
    ensures |a| < |a + b| && (a + b)[..|a|] == a && OccursAt(a + b, b, |a|)
  {
    assert (a + b)[|a|..|a| + |b|] == b;
  }

  /** A prefix `p` of `a` followed by `w` stays so in `a + b`. */
  lemma PrefixLayoutExtends(a: string, b: string, p: string, w: string)
    requires |p| < |a| && a[..|p|] == p && OccursAt(a, w, |p|)
    ensures |p| < |a + b| && (a + b)[..|p|] == p && OccursAt(a + b, w, |p|)
  {
    assert (a + b)[..|p|] == a[..|p|];
    assert (a + b)[|p|..|p| + |w|] == a[|p|..|p| + |w|];
  }

  /** The first position at or after `from` where `p` occurs in `s`. */
  function IndexOfFrom(s: string, p: string, from: nat): (r: Option<nat>)
    ensures r.Some? ==> from <= r.value && OccursAt(s, p, r.value)
    ensures r.Some? ==> forall j :: from <= j < r.value ==> !OccursAt(s, p, j)
    ensures r.None? ==> forall j :: from <= j ==> !OccursAt(s, p, j)
    decreases |s| - from
  {
    if from + |p| > |s| then None
    else if s[from..from + |p|] == p then Some(from)
    else IndexOfFrom(s, p, from + 1)
  }

  /** `s.indexOf(p)` with -1 as None. */
  function IndexOf(s: string, p: string): Option<nat> {
    IndexOfFrom(s, p, 0)
  }

  /** `s.includes(p)`. */
  predicate Contains(s: string, p: string) {
    IndexOf(s, p).Some?
  }

  lemma ContainsIff(s: string, p: string)
    ensures Contains(s, p) <==> exists i :: OccursAt(s, p, i)
  {
  }

  /** `s.substring(n)`: empty when `n` is past the end. */
  function Substring(s: string, n: nat): (r: string)
    ensures |s| <= n ==> r == []
    ensures n <= |s| ==> s == s[..n] + r
  {
    if n <= |s| then s[n..] else []
  }

  // ---------------------------------------------------------------------
  // Decimal numbers

  predicate IsDigit(c: char) {
    '0' <= c <= '9'
  }

  predicate AllDigits(s: string) {
    forall k :: 0 <= k < |s| ==> IsDigit(s[k])
  }

  lemma DigitIsNotSpace(c: char)
    requires IsDigit(c)
    ensures !IsSpace(c)
  {
  }

  /** `parseInt(s, 10)` of a string made of decimal digits only. */
  function DigitsValue(s: string): nat
    requires AllDigits(s)
  {
    if s == [] then 0
    else DigitsValue(s[..|s| - 1]) * 10 + (s[|s| - 1] as int - '0' as int)
  }

  /** The decimal text of a natural number, as `${n}` writes it. */
  function ShowNat(n: nat): (r: string)
    ensures |r| > 0 && AllDigits(r)
  {
    if n < 10 then [('0' as int + n) as char]
    else ShowNat(n / 10) + [('0' as int + n % 10) as char]
  }

  /** `parseInt` reads back what `${n}` writes. */
  lemma {:induction false} ShowNatRoundTrip(n: nat)
    ensures DigitsValue(ShowNat(n)) == n
  {
    var r := ShowNat(n);
    if n >= 10 {
      ShowNatRoundTrip(n / 10);
      assert r[..|r| - 1] == ShowNat(n / 10);
    } else {
      assert r[..|r| - 1] == [];
    }
  }

  // ---------------------------------------------------------------------
  // Miscellany

  /** `lines.join('\n')`. */
  function JoinLines(lines: seq<string>): string {
    if |lines| == 0 then []
    else if |lines| == 1 then lines[0]
    else lines[0] + "\n" + JoinLines(lines[1..])
  }

  lemma JoinLinesStarts(lines: seq<string>)
    requires |lines| > 0 && |lines[0]| > 0
    ensures |JoinLines(lines)| > 0 && JoinLines(lines)[0] == lines[0][0]
  {
  }

  /** JavaScript truthiness of an optional string: present and non-empty. */
  predicate Truthy(x: Id) {
    x.Some? && x.value != []
  }

  /** `a || b` on optional strings. */
  function Or(a: Id, b: Id): (r: Id)
    ensures Truthy(a) ==> r == a
    ensures !Truthy(a) ==> r == b
  {
    if Truthy(a) then a else b
  }

  /** How a template literal renders an optional string. */
  function ShowId(x: Id): string {
    match x
    case Some(s) => s
    case None => "undefined"
  }
}

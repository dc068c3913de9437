/// Strings as the agent's Go code handles them: trimming, lower-casing, searching,
/// splitting and joining. Characters are Unicode scalar values.
///
/// Lower-casing maps rune by rune, as Go's strings.ToLower does. The Unicode table itself is a
/// parameter (`lower`); only its ASCII part is ever relied on, through `LowersAscii`.
module Text {

  /// unicode.IsSpace
  predicate IsSpace(c: char) {
    || '\t' <= c <= '\r' || c == ' ' || c == '\U{85}' || c == '\U{A0}' || c == '\U{1680}'
    || '\U{2000}' <= c <= '\U{200A}' || c == '\U{2028}' || c == '\U{2029}' || c == '\U{202F}'
    || c == '\U{205F}' || c == '\U{3000}'
  }

  /// The first position that is no space, at or after `from`, or the end
  function SpacesEnd(s: string, from: nat): (k: nat)
    requires from <= |s|
    ensures from <= k <= |s|
    decreases |s| - from, 1
  {
    EndAtOrAfter(s, from)
  }

  /// One turn of that scan
  function EndAtOrAfter(s: string, from: nat): (k: nat)
    requires from <= |s|
    ensures from <= k <= |s|
    decreases |s| - from, 0
  {
    if from < |s| && IsSpace(s[from]) then SpacesEnd(s, from + 1) else from
  }

  /// Nothing but spaces
  predicate AllSpace(s: string) {
    SpacesEnd(s, 0) == |s|
  }

  lemma AllSpaceIff(s: string)
    ensures AllSpace(s) <==> forall i | 0 <= i < |s| :: IsSpace(s[i])
  {
    SpacesEndIs(s, 0);
  }

  lemma {:induction false} SpacesEndIs(s: string, from: nat)
    requires from <= |s|
    ensures forall i | from <= i < SpacesEnd(s, from) :: IsSpace(s[i])
    ensures SpacesEnd(s, from) < |s| ==> !IsSpace(s[SpacesEnd(s, from)])
    decreases |s| - from
  {
    if from < |s| && IsSpace(s[from]) {
      SpacesEndIs(s, from + 1);
    }
  }

  /// The position after the last one before `to` that is no space, or the start
  function SpacesStart(s: string, end: nat): (k: nat)
    requires end <= |s|
    ensures k <= end
    decreases end, 1
  {
    StartAtOrBefore(s, end)
  }

  function StartAtOrBefore(s: string, end: nat): (k: nat)
    requires end <= |s|
    ensures k <= end
    decreases end, 0
  {
    if end > 0 && IsSpace(s[end - 1]) then SpacesStart(s, end - 1) else end
  }

  lemma {:induction false} SpacesStartIs(s: string, to: nat)
    requires to <= |s|
    ensures forall i | SpacesStart(s, to) <= i < to :: IsSpace(s[i])
    ensures SpacesStart(s, to) > 0 ==> !IsSpace(s[SpacesStart(s, to) - 1])
  {
    if to > 0 && IsSpace(s[to - 1]) {
      SpacesStartIs(s, to - 1);
    }
  }

  /// strings.TrimSpace
  function Trim(s: string): string
    decreases |s|, 1
  {
    if s == "" then "" else BetweenSpaces(s)
  }

  function BetweenSpaces(s: string): string
    requires s != ""
    decreases |s|, 0
  {
    var from, to := SpacesEnd(s, 0), SpacesStart(s, |s|);
    if from < to then s[from..to] else Trim("")
  }

  lemma TrimIs(s: string)
    ensures var from, to := SpacesEnd(s, 0), SpacesStart(s, |s|);
            Trim(s) == if from < to then s[from..to] else ""
  {
    if s != "" {
      assert Trim(s) == BetweenSpaces(s);
    }
  }

  predicate Blank(s: string) {
    Trim(s) == ""
  }

  predicate Trimmed(s: string) {
    s != [] ==> !IsSpace(s[0]) && !IsSpace(s[|s| - 1])
  }

  /// A position with spaces only before it, and none at it, is where they end.
  lemma {:induction false} SpacesEndAt(s: string, from: nat, k: nat)
    requires from <= k <= |s| && (forall i | from <= i < k :: IsSpace(s[i])) && (k < |s| ==> !IsSpace(s[k]))
    ensures SpacesEnd(s, from) == k
    decreases k - from
  {
    if from < k {
      SpacesEndAt(s, from + 1, k);
    }
  }

  lemma {:induction false} SpacesStartAt(s: string, to: nat, k: nat)
    requires k <= to <= |s| && (forall i | k <= i < to :: IsSpace(s[i])) && (k > 0 ==> !IsSpace(s[k - 1]))
    ensures SpacesStart(s, to) == k
  {
    if k < to {
      SpacesStartAt(s, to - 1, k);
    }
  }

  lemma BlankIffAllSpace(s: string)
    ensures Blank(s) <==> AllSpace(s)
  {
    TrimIs(s);
    SpacesEndIs(s, 0);
    SpacesStartIs(s, |s|);
  }

  lemma AllSpaceConcat(a: string, b: string)
    requires AllSpace(a) && AllSpace(b)
    ensures AllSpace(a + b)
  {
    AllSpaceIff(a);
    AllSpaceIff(b);
    AllSpaceIff(a + b);
  }

  lemma NotBlank(s: string, i: nat)
    requires i < |s| && !IsSpace(s[i])
    ensures !Blank(s)
  {
    BlankIffAllSpace(s);
    AllSpaceIff(s);
  }

  /// What a trim finds between spaces
  lemma TrimBetween(a: string, s: string, b: string)
    requires AllSpace(a) && AllSpace(b) && Trimmed(s)
    ensures Trim(a + s + b) == s
  {
    var all := a + s + b;
    AllSpaceIff(a);
    AllSpaceIff(b);
    if s == [] {
      AllSpaceConcat(a, b);
      assert all == a + b;
      BlankIffAllSpace(all);
    } else {
      assert forall i | 0 <= i < |a| :: all[i] == a[i];
      assert all[|a|] == s[0] && all[|a| + |s| - 1] == s[|s| - 1];
      assert forall i | |a| + |s| <= i < |all| :: all[i] == b[i - |a| - |s|];
      SpacesEndAt(all, 0, |a|);
      SpacesStartAt(all, |all|, |a| + |s|);
      assert all[|a|..|a| + |s|] == s;
    }
  }

  lemma TrimPadded(s: string, pad: string)
    requires Trimmed(s) && AllSpace(pad)
    ensures Trim(s + pad) == s
  {
    TrimBetween([], s, pad);
    assert [] + s + pad == s + pad;
  }

  lemma TrimOfTrimmed(s: string)
    requires Trimmed(s)
    ensures Trim(s) == s
  {
    TrimPadded(s, []);
    assert s + [] == s;
  }

  lemma TrimIsTrimmed(s: string)
    ensures Trimmed(Trim(s)) && Trim(Trim(s)) == Trim(s) && |Trim(s)| <= |s|
  {
    TrimIs(s);
    SpacesEndIs(s, 0);
    SpacesStartIs(s, |s|);
    TrimOfTrimmed(Trim(s));
  }

  /// Trailing spaces do not matter to a trim.
  lemma TrimPad(s: string, pad: string)
    requires AllSpace(pad)
    ensures Trim(s + pad) == Trim(s)
  {
    SpacesEndIs(s, 0);
    SpacesStartIs(s, |s|);
    var from, to := SpacesEnd(s, 0), SpacesStart(s, |s|);
    if from < to {
      AllSpaceIff(s[..from]);
      AllSpaceIff(s[to..]);
      TrimAround(s, from, to, pad);
    } else {
      AllSpaceIff(s);
      AllSpaceConcat(s, pad);
      BlankIffAllSpace(s);
      BlankIffAllSpace(s + pad);
    }
  }

  lemma TrimAround(s: string, from: nat, to: nat, pad: string)
    requires from < to <= |s| && AllSpace(s[..from]) && AllSpace(s[to..]) && AllSpace(pad) && Trimmed(s[from..to])
    ensures Trim(s + pad) == s[from..to]
  {
    AllSpaceConcat(s[to..], pad);
    TrimBetween(s[..from], s[from..to], s[to..] + pad);
    assert s[..from] + s[from..to] + (s[to..] + pad) == s + pad;
  }

  // ---------------------------------------------------------------- case

  /// strings.ToLower, over a rune table
  function ToLower(lower: char -> char, s: string): (r: string)
    ensures |r| == |s|
    ensures forall i | 0 <= i < |s| :: r[i] == lower(s[i])
  {
    seq(|s|, i requires 0 <= i < |s| => lower(s[i]))
  }

  function AsciiLower(c: char): char {
    if 'A' <= c <= 'Z' then c - 'A' + 'a' else c
  }

  /// strings.EqualFold, over a folding table
  predicate EqualFold(fold: char -> char, a: string, b: string)
    ensures EqualFold(fold, a, b) <==> |a| == |b| && forall i | 0 <= i < |a| :: fold(a[i]) == fold(b[i])
  {
    var x, y := ToLower(fold, a), ToLower(fold, b);
    assert |x| == |a| && |y| == |b|;
    assert forall i | 0 <= i < |a| :: x[i] == fold(a[i]);
    assert forall i | 0 <= i < |b| :: y[i] == fold(b[i]);
    x == y
  }

  /// The same text up to surrounding blanks and case
  predicate Agree(lower: char -> char, a: string, b: string) {
    var x, y := Trim(a), Trim(b);
    |x| == |y| && forall i | 0 <= i < |x| :: lower(x[i]) == lower(y[i])
  }

  lemma AgreeIff(lower: char -> char, a: string, b: string)
    ensures Agree(lower, a, b) <==> ToLower(lower, Trim(a)) == ToLower(lower, Trim(b))
  {
    var x, y := ToLower(lower, Trim(a)), ToLower(lower, Trim(b));
    assert forall i | 0 <= i < |Trim(a)| :: x[i] == lower(Trim(a)[i]);
    assert forall i | 0 <= i < |Trim(b)| :: y[i] == lower(Trim(b)[i]);
  }

  /// The table agrees with ASCII lower-casing on ASCII letters.
  ghost predicate LowersAscii(lower: char -> char) {
    forall c: char :: c < '\U{80}' ==> lower(c) == AsciiLower(c)
  }

  lemma ToLowerConcat(lower: char -> char, a: string, b: string)
    ensures ToLower(lower, a + b) == ToLower(lower, a) + ToLower(lower, b)
  {
  }

  // ---------------------------------------------------------------- search

  predicate MatchesAt(s: string, sub: string, i: int) {
    0 <= i && i + |sub| <= |s| && s[i..i + |sub|] == sub
  }

  ghost predicate Contains(s: string, sub: string) {
    exists i :: MatchesAt(s, sub, i)
  }

  /// strings.Index, counted in runes: the first match at or after `from`, or -1
  function IndexFrom(s: string, sub: string, from: nat): (r: int)
    requires from <= |s|
    ensures r == -1 || (from <= r && MatchesAt(s, sub, r))
    ensures forall i | from <= i < (if r == -1 then |s| + 1 else r) :: !MatchesAt(s, sub, i)
    decreases |s| - from
  {
    if MatchesAt(s, sub, from) then from
    else if from == |s| then -1
    else IndexFrom(s, sub, from + 1)
  }

  function Index(s: string, sub: string): (r: int)
    ensures r == -1 <==> !Contains(s, sub)
    ensures r != -1 ==> MatchesAt(s, sub, r) && forall i | 0 <= i < r :: !MatchesAt(s, sub, i)
  {
    IndexFrom(s, sub, 0)
  }

  predicate HasSub(s: string, sub: string)
    ensures HasSub(s, sub) <==> Contains(s, sub)
  {
    Index(s, sub) != -1
  }

  /// A keyword whose first character occurs nowhere earlier is found exactly where it stands.
  lemma IndexAt(s: string, sub: string, p: nat)
    requires sub != [] && MatchesAt(s, sub, p)
    requires forall i | 0 <= i < p :: s[i] != sub[0]
    ensures Index(s, sub) == p
  {
    assert Contains(s, sub);
    assert forall i :: MatchesAt(s, sub, i) ==> s[i..i + |sub|][0] == s[i];
  }

  function CountChar(s: string, c: char): (n: nat)
    ensures n <= |s|
  {
    if s == [] then 0 else (if s[0] == c then 1 else 0) + CountChar(s[1..], c)
  }

  lemma {:induction false} CountCharIs(s: string, c: char)
    ensures CountChar(s, c) == multiset(s)[c]
  {
    if s != [] {
      CountCharIs(s[1..], c);
      assert s == [s[0]] + s[1..];
    }
  }

  /// The word stands at i, in any letter case.
  predicate SpellsAt(lower: char -> char, s: string, word: string, i: int) {
    0 <= i && i + |word| <= |s| && forall k | 0 <= k < |word| :: lower(s[i + k]) == word[k]
  }

  predicate Spells(lower: char -> char, s: string, word: string) {
    exists i | 0 <= i <= |s| :: SpellsAt(lower, s, word, i)
  }

  lemma SpellsAtIff(lower: char -> char, s: string, word: string, i: int)
    ensures MatchesAt(ToLower(lower, s), word, i) <==> SpellsAt(lower, s, word, i)
  {
    var lowered := ToLower(lower, s);
    if 0 <= i && i + |word| <= |s| {
      var piece := lowered[i..i + |word|];
      assert forall k | 0 <= k < |word| :: piece[k] == lower(s[i + k]);
    }
  }

  lemma SpellsIff(lower: char -> char, s: string, word: string)
    ensures HasSub(ToLower(lower, s), word) <==> Spells(lower, s, word)
  {
    if i :| MatchesAt(ToLower(lower, s), word, i) {
      SpellsAtIff(lower, s, word, i);
    }
    if i :| 0 <= i <= |s| && SpellsAt(lower, s, word, i) {
      SpellsAtIff(lower, s, word, i);
    }
  }

  // ---------------------------------------------------------------- split and join

  /// strings.Split by a one-character separator
  function Split(s: string, sep: char): (parts: seq<string>)
    ensures |parts| >= 1
    ensures forall i | 0 <= i < |parts| :: sep !in parts[i]
  {
    if s == [] then [[]]
    else if s[0] == sep then [[]] + Split(s[1..], sep)
    else
      var rest := Split(s[1..], sep);
      [[s[0]] + rest[0]] + rest[1..]
  }

  function Join(parts: seq<string>, sep: char): string
    requires |parts| >= 1
  {
    if |parts| == 1 then parts[0] else parts[0] + [sep] + Join(parts[1..], sep)
  }

  lemma {:induction false} SplitNoSep(s: string, sep: char)
    requires sep !in s
    ensures Split(s, sep) == [s]
  {
    if s != [] {
      SplitNoSep(s[1..], sep);
      assert [s[0]] + s[1..] == s;
    }
  }

  lemma {:induction false} SplitFirst(a: string, rest: string, sep: char)
    requires sep !in a
    ensures Split(a + [sep] + rest, sep) == [a] + Split(rest, sep)
  {
    var s := a + [sep] + rest;
    if a == [] {
      assert s[1..] == rest;
    } else {
      assert s[1..] == a[1..] + [sep] + rest;
      SplitFirst(a[1..], rest, sep);
      assert [a[0]] + a[1..] == a;
    }
  }

  /// Splitting undoes joining.
  lemma {:induction false} SplitJoin(parts: seq<string>, sep: char)
    requires |parts| >= 1
    requires forall i | 0 <= i < |parts| :: sep !in parts[i]
    ensures Split(Join(parts, sep), sep) == parts
  {
    if |parts| == 1 {
      SplitNoSep(parts[0], sep);
    } else {
      SplitJoin(parts[1..], sep);
      SplitFirst(parts[0], Join(parts[1..], sep), sep);
      assert [parts[0]] + parts[1..] == parts;
    }
  }

  lemma {:induction false} JoinAvoids(parts: seq<string>, sep: char, c: char)
    requires |parts| >= 1 && c != sep
    requires forall i | 0 <= i < |parts| :: c !in parts[i]
    ensures c !in Join(parts, sep)
  {
    if |parts| > 1 {
      JoinAvoids(parts[1..], sep, c);
    }
  }
}

/**
  The fragment of regular expressions the reference extractor uses: runs of
  literal characters and `.` (any character except a newline), and capturing
  `[0-9]+` groups, in sequence. `MatchAt` is the greedy matcher a backtracking engine
  runs at one start position; `Scan` is `captures_iter`: leftmost-first,
  non-overlapping, left to right.
 */
module Pattern {
  import opened Text

  /** One character position of a fixed piece. */
  datatype Atom =
    | Lit(c: char)  // that character
    | Wild          // `.`: any character but '\n'

  datatype Piece =
    | Fixed(atoms: seq<Atom>)  // a run of atoms, one character each
    | Digits                   // a capturing group `([0-9]+)`

  type Pattern = seq<Piece>

  /** Where a match that began at a known position ends, and what each group captured. */
  datatype Span = Span(end: nat, groups: seq<string>)

  /** One match reported by `Scan`. */
  datatype Found = Found(start: nat, end: nat, groups: seq<string>)

  function GroupCount(p: Pattern): nat {
    if p == [] then 0 else (if p[0] == Digits then 1 else 0) + GroupCount(p[1..])
  }

  /** The fewest characters a match of `p` spans. */
  function MinWidth(p: Pattern): nat {
    if p == [] then 0 else (if p[0].Fixed? then |p[0].atoms| else 1) + MinWidth(p[1..])
  }

  predicate AllDecimal(groups: seq<string>) {
    forall k :: 0 <= k < |groups| ==> IsDecimal(groups[k])
  }

  predicate AtomMatches(a: Atom, c: char) {
    match a
    case Lit(x) => c == x
    case Wild => c != '\n'
  }

  /** The atoms match the characters of `t`, one for one. */
  predicate AtomsMatch(atoms: seq<Atom>, t: string) {
    |atoms| == |t| && forall k :: 0 <= k < |t| ==> AtomMatches(atoms[k], t[k])
  }

  /** The atoms match the characters of `s` from `i` on. */
  predicate FixedAt(atoms: seq<Atom>, s: string, i: nat) {
    i + |atoms| <= |s| && AtomsMatch(atoms, s[i..i + |atoms|])
  }

  /**
    A pattern whose fixed pieces are non-empty and whose every group is either
    last or followed by a fixed piece that starts with a non-digit literal. For
    these, greedy matching never has to give digits back.
   */
  predicate WellFormed(p: Pattern) {
    forall k :: 0 <= k < |p| ==> WellPlaced(p, k)
  }

  /** Piece `k` of `p` is non-empty if fixed, and is last or stopped by a non-digit literal if a group. */
  predicate WellPlaced(p: Pattern, k: nat)
    requires k < |p|
  {
    && (p[k].Fixed? ==> |p[k].atoms| > 0)
    && (p[k] == Digits ==>
          || k + 1 == |p|
          || (p[k + 1].Fixed? && |p[k + 1].atoms| > 0
              && p[k + 1].atoms[0].Lit? && !IsDigit(p[k + 1].atoms[0].c)))
  }

  /**
    The language of a pattern with its captures: `s[i..j]` matches `p` with
    group texts `groups`. A group may take any non-empty run of digits, not
    only the longest one.
   */
  ghost predicate Accepts(p: Pattern, s: string, i: nat, j: nat, groups: seq<string>)
    decreases |p|
  {
    if p == [] then i == j && groups == []
    else
      match p[0]
      case Fixed(atoms) => FixedAt(atoms, s, i) && Accepts(p[1..], s, i + |atoms|, j, groups)
      case Digits =>
        && |groups| > 0
        && IsDecimal(groups[0])
        && i + |groups[0]| <= |s|
        && s[i..i + |groups[0]|] == groups[0]
        && Accepts(p[1..], s, i + |groups[0]|, j, groups[1..])
  }

  /** Greedy matching of `p` at position `i`: each group takes the longest digit run. */
  function MatchAt(p: Pattern, s: string, i: nat): (r: Option<Span>)
    requires i <= |s|
    ensures r.Some? ==> i + MinWidth(p) <= r.value.end <= |s|
    ensures r.Some? ==> |r.value.groups| == GroupCount(p) && AllDecimal(r.value.groups)
    decreases |p|
  {
    if p == [] then Some(Span(i, []))
    else
      match p[0]
      case Fixed(atoms) => if FixedAt(atoms, s, i) then MatchAt(p[1..], s, i + |atoms|) else None
      case Digits =>
        var n := DigitRun(s, i);
        if n == 0 then None
        else
          match MatchAt(p[1..], s, i + n)
          case None => None
          case Some(rest) => Some(Span(rest.end, [s[i..i + n]] + rest.groups))
  }

  /** What the greedy matcher reports is a genuine match of the pattern. */
  lemma {:induction false} MatchAtSound(p: Pattern, s: string, i: nat, m: Span)
    requires i <= |s| && MatchAt(p, s, i) == Some(m)
    ensures Accepts(p, s, i, m.end, m.groups)
    decreases |p|, 1
  {
    if p == [] {
    } else if p[0].Fixed? {
      FixedSound(p, s, i, m);
    } else {
      DigitsSound(p, s, i, m);
    }
  }

  lemma FixedSound(p: Pattern, s: string, i: nat, m: Span)
    requires i <= |s| && p != [] && p[0].Fixed? && MatchAt(p, s, i) == Some(m)
    ensures Accepts(p, s, i, m.end, m.groups)
    decreases |p|, 0
  {
    MatchAtFixed(p, s, i);
    MatchAtSound(p[1..], s, i + |p[0].atoms|, m);
    AcceptsFixed(p, s, i, m.end, m.groups);
  }

  lemma DigitsSound(p: Pattern, s: string, i: nat, m: Span)
    requires i <= |s| && p != [] && p[0] == Digits && MatchAt(p, s, i) == Some(m)
    ensures Accepts(p, s, i, m.end, m.groups)
    decreases |p|, 0
  {
    var e, rest := DigitsParts(p, s, i, m);
    MatchAtSound(p[1..], s, e, rest);
    AcceptsDigits(p, s, i, e, rest.end, rest.groups);
  }

  /** A match of a pattern that opens with a group, taken apart: the digits up to `e`, then the rest's match from `e`. */
  lemma DigitsParts(p: Pattern, s: string, i: nat, m: Span) returns (e: nat, rest: Span)
    requires i <= |s| && p != [] && p[0] == Digits && MatchAt(p, s, i) == Some(m)
    ensures i <= e <= |s| && IsDecimal(s[i..e]) && MatchAt(p[1..], s, e) == Some(rest)
    ensures m == Span(rest.end, [s[i..e]] + rest.groups)
  {
    e := i + DigitRun(s, i);
    rest := MatchAt(p[1..], s, e).value;
  }

  /** A fixed piece that matches at `i`, then the rest of the pattern from after it. */
  lemma AcceptsFixed(p: Pattern, s: string, i: nat, j: nat, groups: seq<string>)
    requires p != [] && p[0].Fixed? && FixedAt(p[0].atoms, s, i)
    requires Accepts(p[1..], s, i + |p[0].atoms|, j, groups)
    ensures Accepts(p, s, i, j, groups)
  {
  }

  /** A group that takes the digits up to `e`, then the rest of the pattern from there. */
  lemma AcceptsDigits(p: Pattern, s: string, i: nat, e: nat, j: nat, rest: seq<string>)
    requires p != [] && p[0] == Digits && i <= e <= |s| && IsDecimal(s[i..e])
    requires Accepts(p[1..], s, e, j, rest)
    ensures Accepts(p, s, i, j, [s[i..e]] + rest)
  {
    var g := s[i..e];
    assert ([g] + rest)[0] == g && ([g] + rest)[1..] == rest;
  }

  /** A match of a pattern that opens with a fixed piece is a match of the rest after that piece. */
  lemma MatchAtFixed(p: Pattern, s: string, i: nat)
    requires i <= |s| && p != [] && p[0].Fixed? && MatchAt(p, s, i).Some?
    ensures FixedAt(p[0].atoms, s, i)
    ensures MatchAt(p, s, i) == MatchAt(p[1..], s, i + |p[0].atoms|)
  {
  }

  /** A match of a fixed piece and a group followed by more: the group's text, then the rest's groups from `b`. */
  lemma FixedThenGroup(p: Pattern, s: string, i: nat, m: Span) returns (b: nat)
    requires i <= |s| && |p| >= 2 && p[0].Fixed? && p[1] == Digits && MatchAt(p, s, i) == Some(m)
    ensures i + |p[0].atoms| <= b <= |s| && MatchAt(p[1..][1..], s, b).Some?
    ensures m.groups == [s[i + |p[0].atoms|..b]] + MatchAt(p[1..][1..], s, b).value.groups
  {
    MatchAtFixed(p, s, i);
    var rest;
    b, rest := DigitsParts(p[1..], s, i + |p[0].atoms|, m);
  }

  /** A digit run that starts at `i` is no longer than the longest one, and is it when a non-digit follows. */
  lemma RunWithinLongest(s: string, i: nat, g: string)
    requires i + |g| <= |s| && s[i..i + |g|] == g && AllDigits(g)
    ensures |g| <= DigitRun(s, i)
    ensures i + |g| < |s| && !IsDigit(s[i + |g|]) ==> |g| == DigitRun(s, i)
  {
  }

  lemma WellFormedTail(p: Pattern)
    requires WellFormed(p) && |p| > 0
    ensures WellFormed(p[1..])
  {
    forall k | 0 <= k < |p[1..]|
      ensures WellPlaced(p[1..], k)
    {
      assert WellPlaced(p, k + 1);
      assert p[1..][k] == p[k + 1];
      if k + 1 < |p[1..]| {
        assert p[1..][k + 1] == p[k + 2];
      }
    }
  }

  /**
    For a well-formed pattern the greedy match is the longest match at `i`:
    any match ends no later, and one that ends at the same place captured the
    same groups.
   */
  lemma {:induction false} MatchAtLongest(p: Pattern, s: string, i: nat, j: nat, groups: seq<string>)
    requires WellFormed(p) && i <= |s| && Accepts(p, s, i, j, groups)
    ensures MatchAt(p, s, i).Some?
    ensures j <= MatchAt(p, s, i).value.end
    ensures j == MatchAt(p, s, i).value.end ==> groups == MatchAt(p, s, i).value.groups
    decreases |p|, 1
  {
    if p == [] {
    } else if p[0].Fixed? {
      FixedLongest(p, s, i, j, groups);
    } else if |p| == 1 {
      LastGroupLongest(p, s, i, j, groups);
    } else {
      InnerGroupLongest(p, s, i, j, groups);
    }
  }

  lemma FixedLongest(p: Pattern, s: string, i: nat, j: nat, groups: seq<string>)
    requires WellFormed(p) && i <= |s| && p != [] && p[0].Fixed? && Accepts(p, s, i, j, groups)
    ensures MatchAt(p, s, i).Some?
    ensures j <= MatchAt(p, s, i).value.end
    ensures j == MatchAt(p, s, i).value.end ==> groups == MatchAt(p, s, i).value.groups
    decreases |p|, 0
  {
    WellFormedTail(p);
    AcceptsFixedTail(p, s, i, j, groups);
    MatchAtLongest(p[1..], s, i + |p[0].atoms|, j, groups);
    FixedStep(p, s, i, j, groups);
  }

  lemma InnerGroupLongest(p: Pattern, s: string, i: nat, j: nat, groups: seq<string>)
    requires WellFormed(p) && i <= |s| && |p| > 1 && p[0] == Digits && Accepts(p, s, i, j, groups)
    ensures MatchAt(p, s, i).Some?
    ensures j <= MatchAt(p, s, i).value.end
    ensures j == MatchAt(p, s, i).value.end ==> groups == MatchAt(p, s, i).value.groups
    decreases |p|, 0
  {
    WellFormedTail(p);
    GroupIsLongest(p, s, i, j, groups);
    AcceptsDigitsTail(p, s, i, j, groups);
    MatchAtLongest(p[1..], s, i + DigitRun(s, i), j, groups[1..]);
    DigitsStep(p, s, i, j, groups);
  }

  /** A match that opens with a fixed piece: that piece, then a match of the rest after it. */
  lemma AcceptsFixedTail(p: Pattern, s: string, i: nat, j: nat, groups: seq<string>)
    requires p != [] && p[0].Fixed? && Accepts(p, s, i, j, groups)
    ensures FixedAt(p[0].atoms, s, i) && Accepts(p[1..], s, i + |p[0].atoms|, j, groups)
  {
  }

  /** A match that opens with a group: its digits, then a match of the rest with the other groups. */
  lemma AcceptsDigitsTail(p: Pattern, s: string, i: nat, j: nat, groups: seq<string>)
    requires p != [] && p[0] == Digits && Accepts(p, s, i, j, groups)
    ensures |groups| > 0 && Accepts(p[1..], s, i + |groups[0]|, j, groups[1..])
  {
  }

  /** A leading fixed piece: the greedy match at `i` is the one of the rest after it. */
  lemma FixedStep(p: Pattern, s: string, i: nat, j: nat, groups: seq<string>)
    requires i <= |s| && p != [] && p[0].Fixed? && FixedAt(p[0].atoms, s, i)
    requires var rest := MatchAt(p[1..], s, i + |p[0].atoms|);
      && rest.Some? && j <= rest.value.end
      && (j == rest.value.end ==> groups == rest.value.groups)
    ensures MatchAt(p, s, i).Some?
    ensures j <= MatchAt(p, s, i).value.end
    ensures j == MatchAt(p, s, i).value.end ==> groups == MatchAt(p, s, i).value.groups
  {
  }

  /** A group that ends the pattern: the greedy match takes the longest run. */
  lemma LastGroupLongest(p: Pattern, s: string, i: nat, j: nat, groups: seq<string>)
    requires i <= |s| && p == [Digits] && Accepts(p, s, i, j, groups)
    ensures MatchAt(p, s, i).Some?
    ensures j <= MatchAt(p, s, i).value.end
    ensures j == MatchAt(p, s, i).value.end ==> groups == MatchAt(p, s, i).value.groups
  {
    var g := groups[0];
    var n := DigitRun(s, i);
    RunWithinLongest(s, i, g);
    assert p[1..] == [];
    assert groups == [g];
    assert j == i + |g|;
    assert MatchAt(p[1..], s, i + n) == Some(Span(i + n, []));
    if j == MatchAt(p, s, i).value.end {
      assert g == s[i..i + n];
    }
  }

  /** A leading group that took the whole run: the rest of the argument is about the tail. */
  lemma DigitsStep(p: Pattern, s: string, i: nat, j: nat, groups: seq<string>)
    requires i <= |s| && |p| > 1 && p[0] == Digits && Accepts(p, s, i, j, groups)
    requires |groups[0]| == DigitRun(s, i)
    requires var rest := MatchAt(p[1..], s, i + DigitRun(s, i));
      && rest.Some? && j <= rest.value.end
      && (j == rest.value.end ==> groups[1..] == rest.value.groups)
    ensures MatchAt(p, s, i).Some?
    ensures j <= MatchAt(p, s, i).value.end
    ensures j == MatchAt(p, s, i).value.end ==> groups == MatchAt(p, s, i).value.groups
  {
    assert groups == [groups[0]] + groups[1..];
  }

  /** In a well-formed pattern a group followed by more pattern always captures the whole digit run. */
  lemma GroupIsLongest(p: Pattern, s: string, i: nat, j: nat, groups: seq<string>)
    requires WellFormed(p) && |p| > 1 && p[0] == Digits && Accepts(p, s, i, j, groups)
    ensures |groups[0]| == DigitRun(s, i)
  {
    var g := groups[0];
    RunWithinLongest(s, i, g);
    assert WellPlaced(p, 0);
    assert p[1..][0] == p[1];
    var next := p[1].atoms;
    assert FixedAt(next, s, i + |g|);
    assert AtomMatches(next[0], s[i + |g|]);
  }

  /** A match starts at `k`. */
  ghost predicate MatchStarts(p: Pattern, s: string, k: nat) {
    k <= |s| && MatchAt(p, s, k).Some?
  }

  /** There is no match starting anywhere in `[lo, hi)`. */
  ghost predicate NoMatchIn(p: Pattern, s: string, lo: nat, hi: nat) {
    forall k: nat :: lo <= k < hi ==> !MatchStarts(p, s, k)
  }

  /** `f` is the greedy match at its own start position. */
  ghost predicate IsMatch(p: Pattern, s: string, f: Found) {
    f.start <= |s| && MatchAt(p, s, f.start) == Some(Span(f.end, f.groups))
  }

  /**
    `found` is what a leftmost-first search from `i` reports: no match starts
    before its first entry, that entry is a match, and the rest is such a
    chain from where the entry ends; an empty chain means no match starts
    anywhere from `i` on. So the entries are in order, do not overlap, and no
    match starts in a gap the search skipped.
   */
  ghost predicate LeftmostChain(p: Pattern, s: string, i: nat, found: seq<Found>)
    decreases |found|
  {
    if found == [] then NoMatchIn(p, s, i, |s|)
    else
      && i <= found[0].start
      && NoMatchIn(p, s, i, found[0].start)
      && IsMatch(p, s, found[0])
      && LeftmostChain(p, s, found[0].end, found[1..])
  }

  /**
    `captures_iter`: from `i`, find the leftmost match, report it, resume
    where it ended. Every entry reported is a match at its start position.
   */
  function Scan(p: Pattern, s: string, i: nat): (found: seq<Found>)
    requires MinWidth(p) > 0 && i <= |s|
    ensures forall t :: 0 <= t < |found| ==> IsMatch(p, s, found[t])
    decreases |s| - i
  {
    if i == |s| then []
    else
      match MatchAt(p, s, i)
      case Some(m) => [Found(i, m.end, m.groups)] + Scan(p, s, m.end)
      case None => Scan(p, s, i + 1)
  }

  /** `Scan` reports the leftmost-first chain of non-overlapping matches. */
  lemma {:induction false} ScanIsLeftmostChain(p: Pattern, s: string, i: nat)
    requires MinWidth(p) > 0 && i <= |s|
    ensures LeftmostChain(p, s, i, Scan(p, s, i))
    decreases |s| - i, 1
  {
    if i == |s| {
    } else if MatchAt(p, s, i).Some? {
      ScanFromMatch(p, s, i, MatchAt(p, s, i).value);
    } else {
      ScanPastMiss(p, s, i);
    }
  }

  lemma ScanFromMatch(p: Pattern, s: string, i: nat, m: Span)
    requires MinWidth(p) > 0 && i < |s| && MatchAt(p, s, i) == Some(m)
    ensures LeftmostChain(p, s, i, Scan(p, s, i))
    decreases |s| - i, 0
  {
    ScanMatchAt(p, s, i, m);
    ScanIsLeftmostChain(p, s, m.end);
    ChainCons(p, s, i, m, Scan(p, s, m.end));
  }

  lemma ScanPastMiss(p: Pattern, s: string, i: nat)
    requires MinWidth(p) > 0 && i < |s| && MatchAt(p, s, i).None?
    ensures LeftmostChain(p, s, i, Scan(p, s, i))
    decreases |s| - i, 0
  {
    ScanStep(p, s, i);
    ScanIsLeftmostChain(p, s, i + 1);
    ChainSkip(p, s, i, Scan(p, s, i + 1));
  }

  /** A match at `i` followed by a chain from where it ends is a chain from `i`. */
  lemma ChainCons(p: Pattern, s: string, i: nat, m: Span, rest: seq<Found>)
    requires i <= |s| && MatchAt(p, s, i) == Some(m) && LeftmostChain(p, s, m.end, rest)
    ensures LeftmostChain(p, s, i, [Found(i, m.end, m.groups)] + rest)
  {
    var found := [Found(i, m.end, m.groups)] + rest;
    assert found[1..] == rest;
  }

  /** No match at `i`: a chain from `i + 1` is a chain from `i`. */
  lemma ChainSkip(p: Pattern, s: string, i: nat, found: seq<Found>)
    requires i <= |s| && MatchAt(p, s, i).None? && LeftmostChain(p, s, i + 1, found)
    ensures LeftmostChain(p, s, i, found)
  {
    if found == [] {
      NoMatchExtend(p, s, i, |s|);
    } else {
      NoMatchExtend(p, s, i, found[0].start);
    }
  }

  lemma NoMatchExtend(p: Pattern, s: string, i: nat, hi: nat)
    requires i <= |s| && MatchAt(p, s, i).None? && NoMatchIn(p, s, i + 1, hi)
    ensures NoMatchIn(p, s, i, hi)
  {
  }

  /** With no match in `[i, k)`, searching from `i` is searching from `k`. */
  lemma {:induction false} ScanSkips(p: Pattern, s: string, i: nat, k: nat)
    requires MinWidth(p) > 0 && i <= k <= |s| && NoMatchIn(p, s, i, k)
    ensures Scan(p, s, i) == Scan(p, s, k)
    decreases k - i
  {
    if i < k {
      NoMatchFirst(p, s, i, k);
      ScanStep(p, s, i);
      ScanSkips(p, s, i + 1, k);
    }
  }

  lemma NoMatchFirst(p: Pattern, s: string, i: nat, k: nat)
    requires i < k <= |s| && NoMatchIn(p, s, i, k)
    ensures MatchAt(p, s, i).None? && NoMatchIn(p, s, i + 1, k)
  {
    assert !MatchStarts(p, s, i);
  }

  lemma ScanStep(p: Pattern, s: string, i: nat)
    requires MinWidth(p) > 0 && i < |s| && MatchAt(p, s, i).None?
    ensures Scan(p, s, i) == Scan(p, s, i + 1)
  {
  }

  lemma ScanMatchStep(p: Pattern, s: string, i: nat)
    requires MinWidth(p) > 0 && i < |s| && MatchAt(p, s, i).Some?
    ensures MatchAt(p, s, i).value.end <= |s|
    ensures Scan(p, s, i)
         == [Found(i, MatchAt(p, s, i).value.end, MatchAt(p, s, i).value.groups)] + Scan(p, s, MatchAt(p, s, i).value.end)
  {
  }

  /** A match `m` at `i`: the search reports it and resumes where it ends. */
  lemma ScanMatchAt(p: Pattern, s: string, i: nat, m: Span)
    requires MinWidth(p) > 0 && i < |s| && MatchAt(p, s, i) == Some(m)
    ensures Scan(p, s, i) == [Found(i, m.end, m.groups)] + Scan(p, s, m.end)
  {
    ScanMatchStep(p, s, i);
  }

  /** The leftmost-first description determines the result: `Scan` is the only chain. */
  lemma {:induction false} ChainIsScan(p: Pattern, s: string, i: nat, found: seq<Found>)
    requires MinWidth(p) > 0 && i <= |s| && LeftmostChain(p, s, i, found)
    ensures found == Scan(p, s, i)
    decreases |s| - i
  {
    if found == [] {
      ScanSkips(p, s, i, |s|);
    } else {
      var f := found[0];
      ScanSkips(p, s, i, f.start);
      ScanMatchAt(p, s, f.start, Span(f.end, f.groups));
      ChainIsScan(p, s, f.end, found[1..]);
      assert found == [f] + found[1..];
    }
  }

  /** The `g`-th group of every match, in order. */
  function Captures(found: seq<Found>, g: nat): (ids: seq<string>)
    requires forall t :: 0 <= t < |found| ==> g < |found[t].groups|
    ensures |ids| == |found|
    ensures forall t :: 0 <= t < |found| ==> ids[t] == found[t].groups[g]
  {
    if found == [] then [] else [found[0].groups[g]] + Captures(found[1..], g)
  }

  lemma CapturesCons(f: Found, rest: seq<Found>, g: nat)
    requires g < |f.groups| && forall t :: 0 <= t < |rest| ==> g < |rest[t].groups|
    ensures Captures([f] + rest, g) == [f.groups[g]] + Captures(rest, g)
  {
    assert ([f] + rest)[1..] == rest;
  }
}

/**
  Reference extraction: the ticket identifiers a blocker's free-text
  description names, found by three fixed patterns applied one after the
  other. All matches of the first pattern come first, then all of the second,
  then all of the third; within a pattern, left to right. Nothing is
  deduplicated or normalised.
 */
module ReferenceExtractor {
  import opened Text
  import opened Pattern

  /**
    The atoms of a stretch of regular-expression text that holds no
    metacharacter but `.`: an unescaped dot stands for any character but a
    newline, every other character for itself.
   */
  function Atoms(regex: string): (atoms: seq<Atom>)
    ensures |atoms| == |regex|
    ensures forall k :: 0 <= k < |regex| ==> atoms[k] == (if regex[k] == '.' then Wild else Lit(regex[k]))
  {
    seq(|regex|, k requires 0 <= k < |regex| => if regex[k] == '.' then Wild else Lit(regex[k]))
  }

  /** `\#([0-9]+)` */
  const ShortTag: Pattern := [Fixed(Atoms("#")), Digits]

  /** `https://www.pivotaltracker.com/story/show/([0-9]+)`; its dots are unescaped. */
  const CanonicalUrl: Pattern := [Fixed(Atoms("https://www.pivotaltracker.com/story/show/")), Digits]

  /** `https://www.pivotaltracker.com/n/projects/([0-9]+)/stories/([0-9]+)`; its dots are unescaped. */
  const AlternateUrl: Pattern :=
    [Fixed(Atoms("https://www.pivotaltracker.com/n/projects/")), Digits, Fixed(Atoms("/stories/")), Digits]

  /** What `Scan` and `Captures` need of a pattern and the group taken from it. */
  predicate Usable(p: Pattern, group: nat) {
    MinWidth(p) > 0 && group < GroupCount(p)
  }

  lemma ShortTagUsable()
    ensures Usable(ShortTag, 0)
  {
    assert ShortTag[1..][1..] == [];
  }

  /** The three patterns are well-formed; the alternate URL has two groups, the others one. */
  lemma PatternFacts()
    ensures Usable(ShortTag, 0) && WellFormed(ShortTag)
    ensures Usable(CanonicalUrl, 0) && WellFormed(CanonicalUrl)
    ensures Usable(AlternateUrl, 1) && WellFormed(AlternateUrl)
  {
    assert ShortTag[1..][1..] == [];
    assert CanonicalUrl[1..][1..] == [];
    assert AlternateUrl[1..][1..][1..][1..] == [];
    assert Atoms("/stories/")[0] == Lit('/');
  }

  /** The identifiers one pattern finds in `description`: its `group`-th group, in textual order. */
  function PatternIds(p: Pattern, group: nat, description: string): (ids: seq<string>)
    requires Usable(p, group)
    ensures forall k :: 0 <= k < |ids| ==> IsDecimal(ids[k])
  {
    var found := Scan(p, description, 0);
    assert forall t :: 0 <= t < |found| ==> IsMatch(p, description, found[t]);
    Captures(found, group)
  }

  function ShortTagIds(description: string): seq<string> {
    PatternFacts();
    PatternIds(ShortTag, 0, description)
  }

  function CanonicalIds(description: string): seq<string> {
    PatternFacts();
    PatternIds(CanonicalUrl, 0, description)
  }

  /** The alternate URL contributes its second group, the story number. */
  function AlternateIds(description: string): seq<string> {
    PatternFacts();
    PatternIds(AlternateUrl, 1, description)
  }

  /**
    `get_ticket_numbers_from_blocker_description`: all short-tag results, then
    all canonical-URL results, then all alternate-URL results.
   */
  function TicketNumbers(description: string): (ids: seq<string>)
    ensures forall k :: 0 <= k < |ids| ==> IsDecimal(ids[k])
  {
    ShortTagIds(description) + CanonicalIds(description) + AlternateIds(description)
  }

  /**
    Declarative reading of `TicketNumbers`: given the leftmost-first,
    non-overlapping match chains of the three patterns over the whole
    description, the result is the short tags' digits, then the canonical
    URLs' story numbers, then the alternate URLs' second groups.
   */
  lemma TicketNumbersAreChains(d: string, tags: seq<Found>, urls: seq<Found>, alts: seq<Found>)
    requires LeftmostChain(ShortTag, d, 0, tags)
    requires LeftmostChain(CanonicalUrl, d, 0, urls)
    requires LeftmostChain(AlternateUrl, d, 0, alts)
    ensures forall t :: 0 <= t < |tags| ==> |tags[t].groups| == 1
    ensures forall t :: 0 <= t < |urls| ==> |urls[t].groups| == 1
    ensures forall t :: 0 <= t < |alts| ==> |alts[t].groups| == 2
    ensures TicketNumbers(d) == Captures(tags, 0) + Captures(urls, 0) + Captures(alts, 1)
  {
    PatternFacts();
    ChainIds(ShortTag, 0, d, tags);
    ChainIds(CanonicalUrl, 0, d, urls);
    ChainIds(AlternateUrl, 1, d, alts);
  }

  /** One pattern's results are the chosen group of its leftmost chain of matches. */
  lemma ChainIds(p: Pattern, group: nat, d: string, found: seq<Found>)
    requires Usable(p, group) && LeftmostChain(p, d, 0, found)
    ensures forall t :: 0 <= t < |found| ==> |found[t].groups| == GroupCount(p)
    ensures PatternIds(p, group, d) == Captures(found, group)
  {
    ChainIsScan(p, d, 0, found);
  }

  /**
    Reference definition of the short-tag results, by position: every `#`
    followed by a digit contributes the whole digit run after it.
   */
  function TagRef(d: string, i: nat): seq<string>
    requires i <= |d|
    decreases |d| - i
  {
    if i + 1 >= |d| then [] else TagAt(d, i) + TagRef(d, i + 1)
  }

  /** The contribution of position `i` alone: a `#` followed by a digit gives the digit run after it. */
  function TagAt(d: string, i: nat): seq<string>
    requires i + 1 < |d|
  {
    if d[i] == '#' && IsDigit(d[i + 1]) then [d[i + 1..i + 1 + DigitRun(d, i + 1)]] else []
  }

  lemma TagRefAtTag(d: string, i: nat)
    requires i + 1 < |d| && d[i] == '#' && IsDigit(d[i + 1])
    ensures TagRef(d, i) == [d[i + 1..i + 1 + DigitRun(d, i + 1)]] + TagRef(d, i + 1)
  {
  }

  /** Positions inside a run of digits hold no `#`, so skipping them loses no tag. */
  lemma {:induction false} TagRefSkipsDigits(d: string, a: nat, b: nat)
    requires a <= b <= |d|
    requires forall k :: a <= k < b ==> IsDigit(d[k])
    ensures TagRef(d, a) == TagRef(d, b)
    decreases b - a
  {
    if a < b {
      TagRefSkipsDigits(d, a + 1, b);
      if a + 1 < |d| {
        assert TagAt(d, a) == [] by { assert IsDigit(d[a]); }
        assert TagRef(d, a) == TagAt(d, a) + TagRef(d, a + 1);
      }
    }
  }

  /** Where the short-tag pattern matches: a `#` with a digit after it, taking the whole digit run. */
  lemma ShortTagMatchAt(d: string, i: nat)
    requires i < |d|
    ensures d[i] == '#' && i + 1 < |d| && IsDigit(d[i + 1]) ==>
              MatchAt(ShortTag, d, i) == Some(Span(i + 1 + DigitRun(d, i + 1), [d[i + 1..i + 1 + DigitRun(d, i + 1)]]))
    ensures !(d[i] == '#' && i + 1 < |d| && IsDigit(d[i + 1])) ==> MatchAt(ShortTag, d, i).None?
  {
    var tail: Pattern := [Digits];
    assert ShortTag[1..] == tail;
    assert tail[1..] == [];
    var hash := Atoms("#");
    assert |hash| == 1 && hash[0] == Lit('#');
    if i + 1 <= |d| {
      assert d[i..i + 1][0] == d[i];
    }
    assert FixedAt(hash, d, i) <==> d[i] == '#';
    if d[i] == '#' {
      assert MatchAt(ShortTag, d, i) == MatchAt(tail, d, i + 1);
      var n := DigitRun(d, i + 1);
      if n > 0 {
        assert MatchAt(tail[1..], d, i + 1 + n) == Some(Span(i + 1 + n, []));
        assert [d[i + 1..i + 1 + n]] + [] == [d[i + 1..i + 1 + n]];
      }
    }
  }

  /** At a tag, the search reports the tag's digit run and resumes after it. */
  lemma ShortTagScanAtTag(d: string, i: nat)
    requires i + 1 < |d| && d[i] == '#' && IsDigit(d[i + 1])
    ensures var e := i + 1 + DigitRun(d, i + 1);
      Scan(ShortTag, d, i) == [Found(i, e, [d[i + 1..e]])] + Scan(ShortTag, d, e)
  {
    var e := i + 1 + DigitRun(d, i + 1);
    ShortTagUsable();
    ShortTagMatchAt(d, i);
    ScanMatchAt(ShortTag, d, i, Span(e, [d[i + 1..e]]));
  }

  /** Anywhere else, both the search and the reference definition move on by one character. */
  lemma ShortTagScanAtOther(d: string, i: nat)
    requires i < |d| && !(d[i] == '#' && i + 1 < |d| && IsDigit(d[i + 1]))
    ensures Scan(ShortTag, d, i) == Scan(ShortTag, d, i + 1)
    ensures TagRef(d, i) == TagRef(d, i + 1)
  {
    ShortTagUsable();
    ShortTagMatchAt(d, i);
    ScanStep(ShortTag, d, i);
  }

  lemma {:induction false} ShortTagScanIsTagRef(d: string, i: nat)
    requires i <= |d|
    ensures Captures(Scan(ShortTag, d, i), 0) == TagRef(d, i)
    decreases |d| - i
  {
    ShortTagUsable();
    if i < |d| {
      if d[i] == '#' && i + 1 < |d| && IsDigit(d[i + 1]) {
        var e := i + 1 + DigitRun(d, i + 1);
        ShortTagScanAtTag(d, i);
        CapturesCons(Found(i, e, [d[i + 1..e]]), Scan(ShortTag, d, e), 0);
        ShortTagScanIsTagRef(d, e);
        TagRefSkipsDigits(d, i + 1, e);
        TagRefAtTag(d, i);
      } else {
        ShortTagScanAtOther(d, i);
        ShortTagScanIsTagRef(d, i + 1);
      }
    }
  }

  /**
    Each `#` directly followed by digits contributes its maximal digit run,
    verbatim and in textual order.
   */
  lemma ShortTagIdsSpec(description: string)
    ensures ShortTagIds(description) == TagRef(description, 0)
  {
    ShortTagScanIsTagRef(description, 0);
  }

  /** A pattern yields nothing exactly when it matches nowhere in the description. */
  lemma PatternIdsEmpty(p: Pattern, group: nat, description: string)
    requires Usable(p, group)
    ensures PatternIds(p, group, description) == [] <==> NoMatchIn(p, description, 0, |description|)
  {
    var found := Scan(p, description, 0);
    ScanIsLeftmostChain(p, description, 0);
    if |found| > 0 {
      assert IsMatch(p, description, found[0]);
      assert MatchStarts(p, description, found[0].start);
    }
  }

  /** A description yields no identifier exactly when none of the three patterns matches anywhere in it. */
  lemma NoMatchNoIds(description: string)
    ensures TicketNumbers(description) == []
        <==> && NoMatchIn(ShortTag, description, 0, |description|)
             && NoMatchIn(CanonicalUrl, description, 0, |description|)
             && NoMatchIn(AlternateUrl, description, 0, |description|)
  {
    PatternFacts();
    PatternIdsEmpty(ShortTag, 0, description);
    PatternIdsEmpty(CanonicalUrl, 0, description);
    PatternIdsEmpty(AlternateUrl, 1, description);
  }

  /** The identifier text `id` stands at `q`, right after `/stories/`, and is a maximal digit run. */
  ghost predicate StoriesSegmentAt(d: string, q: int, id: string) {
    && 9 <= q
    && q + |id| <= |d|
    && d[q - 9..q] == "/stories/"
    && d[q..q + |id|] == id
    && (q + |id| == |d| || !IsDigit(d[q + |id|]))
  }

  /** A group piece followed by nothing: its match is the whole digit run. */
  lemma LastGroupMatch(d: string, q: nat)
    requires q <= |d| && MatchAt([Digits], d, q).Some?
    ensures MatchAt([Digits], d, q).value.groups == [d[q..q + DigitRun(d, q)]]
  {
    var tail: Pattern := [Digits];
    assert tail[1..] == [];
  }

  /** What the alternate URL matches from `/stories/` on: that segment, then the story number. */
  lemma StoriesTailMatch(d: string, b: nat)
    requires b <= |d| && MatchAt(AlternateUrl[1..][1..], d, b).Some?
    ensures b + 9 <= |d| && d[b..b + 9] == "/stories/"
    ensures MatchAt(AlternateUrl[1..][1..], d, b).value.groups == [d[b + 9..b + 9 + DigitRun(d, b + 9)]]
    ensures StoriesSegmentAt(d, b + 9, MatchAt(AlternateUrl[1..][1..], d, b).value.groups[0])
  {
    var stories := Atoms("/stories/");
    var tail: Pattern := [Digits];
    assert AlternateUrl[1..][1..] == [Fixed(stories)] + tail;
    assert AlternateUrl[1..][1..][1..] == tail;
    assert FixedAt(stories, d, b);
    forall k | 0 <= k < 9
      ensures d[b + k] == "/stories/"[k]
    {
      assert AtomMatches(stories[k], d[b..b + 9][k]);
    }
    LastGroupMatch(d, b + 9);
  }

  /** The alternate URL's second group is the one `StoriesTailMatch` describes. */
  lemma AlternateMatch(d: string, i: nat) returns (b: nat)
    requires i <= |d| && MatchAt(AlternateUrl, d, i).Some?
    ensures b <= |d| && MatchAt(AlternateUrl[1..][1..], d, b).Some?
    ensures MatchAt(AlternateUrl, d, i).value.groups[1] == MatchAt(AlternateUrl[1..][1..], d, b).value.groups[0]
  {
    b := FixedThenGroup(AlternateUrl, d, i, MatchAt(AlternateUrl, d, i).value);
  }

  /**
    An alternate-URL result is the digit run right after `/stories/`, never the
    project number before it.
   */
  lemma AlternateIdFollowsStories(description: string, t: nat)
    requires t < |AlternateIds(description)|
    ensures exists q :: StoriesSegmentAt(description, q, AlternateIds(description)[t])
  {
    PatternFacts();
    var d := description;
    var found := Scan(AlternateUrl, d, 0);
    var f := found[t];
    assert AlternateIds(d)[t] == f.groups[1];
    assert IsMatch(AlternateUrl, d, f);
    var b := AlternateMatch(d, f.start);
    StoriesTailMatch(d, b);
  }

  /** Position `j` contributes the same before and after cutting the text at a `#`. */
  lemma TagAtBeforeHash(d: string, c: nat, j: nat)
    requires j + 1 < c < |d| && d[c] == '#'
    ensures TagAt(d[..c], j) == TagAt(d, j)
  {
    var p := d[..c];
    assert p[j] == d[j] && p[j + 1] == d[j + 1];
    if d[j] == '#' && IsDigit(d[j + 1]) {
      var n := DigitRun(d, j + 1);
      DigitRunUnique(p, j + 1, n);
      assert p[j + 1..j + 1 + n] == d[j + 1..j + 1 + n];
    }
  }

  /** Cutting the text at a `#` keeps every tag before the cut: no digit run reaches past a `#`. */
  lemma {:induction false} TagRefBeforeHash(d: string, c: nat, j: nat)
    requires j <= c < |d| && d[c] == '#'
    ensures TagRef(d, j) == TagRef(d[..c], j) + TagRef(d, c)
    decreases c - j
  {
    if j < c {
      TagRefBeforeHash(d, c, j + 1);
      var p := d[..c];
      assert TagRef(d, j) == TagAt(d, j) + TagRef(d, j + 1);
      if j + 1 < c {
        TagAtBeforeHash(d, c, j);
        assert TagRef(p, j) == TagAt(p, j) + TagRef(p, j + 1);
      } else {
        assert TagAt(d, j) == [] && TagRef(p, j) == [];
      }
    }
  }

  /** Position `i` contributes what the same character does in the suffix from `e`. */
  lemma TagAtShift(d: string, e: nat, i: nat)
    requires e <= i && i + 1 < |d|
    ensures TagAt(d, i) == TagAt(d[e..], i - e)
  {
    var q := d[e..];
    assert q[i - e] == d[i] && q[i - e + 1] == d[i + 1];
    if d[i] == '#' && IsDigit(d[i + 1]) {
      var n := DigitRun(d, i + 1);
      DigitRunUnique(q, i - e + 1, n);
      assert q[i - e + 1..i - e + 1 + n] == d[i + 1..i + 1 + n];
    }
  }

  /** The tags from position `i` on are those of the suffix from `e`, from the same character on. */
  lemma {:induction false} TagRefShift(d: string, e: nat, i: nat)
    requires e <= i <= |d|
    ensures TagRef(d, i) == TagRef(d[e..], i - e)
    decreases |d| - i
  {
    var q := d[e..];
    if i + 1 < |d| {
      TagRefShift(d, e, i + 1);
      TagAtShift(d, e, i);
      assert TagRef(d, i) == TagAt(d, i) + TagRef(d, i + 1);
      assert TagRef(q, i - e) == TagAt(q, i - e) + TagRef(q, i - e + 1);
    } else {
      assert TagRef(q, i - e) == [];
    }
  }

  /** The suffix from `e` has the tags found from position `e` on. */
  lemma TagRefSuffix(d: string, e: nat)
    requires e <= |d|
    ensures TagRef(d, e) == TagRef(d[e..], 0)
  {
    TagRefShift(d, e, e);
  }

  /** At a tag, the reference definition takes the tag's digit run and moves past it. */
  lemma TagRun(d: string, i: nat) returns (e: nat)
    requires i + 1 < |d| && d[i] == '#' && IsDigit(d[i + 1])
    ensures e == i + 1 + DigitRun(d, i + 1) && e <= |d|
    ensures TagRef(d, i) == [d[i + 1..e]] + TagRef(d, e)
  {
    TagRefAtTag(d, i);
    TagRefSkipsRun(d, i + 1);
    e := i + 1 + DigitRun(d, i + 1);
  }

  /** Skipping a digit run loses no tag. */
  lemma TagRefSkipsRun(d: string, a: nat)
    requires a <= |d|
    ensures TagRef(d, a) == TagRef(d, a + DigitRun(d, a))
  {
    TagRefSkipsDigits(d, a, a + DigitRun(d, a));
  }

  /** The reference definition split around one tag. */
  lemma TagRefSplit(d: string, i: nat) returns (e: nat)
    requires i + 1 < |d| && d[i] == '#' && IsDigit(d[i + 1])
    ensures e == i + 1 + DigitRun(d, i + 1)
    ensures TagRef(d, 0) == TagRef(d[..i], 0) + [d[i + 1..e]] + TagRef(d[e..], 0)
  {
    e := TagRun(d, i);
    TagRefBeforeHash(d, i, 0);
    TagRefSuffix(d, e);
  }

  /**
    Any `#` directly followed by digits contributes its whole digit run, as
    written (`#007` yields `007`, not `7`), between the results of the text
    before it and those of the text after the run.
   */
  lemma ShortTagKeepsDigitsVerbatim(d: string, i: nat)
    requires i + 1 < |d| && d[i] == '#' && IsDigit(d[i + 1])
    ensures var e := i + 1 + DigitRun(d, i + 1);
      ShortTagIds(d) == ShortTagIds(d[..i]) + [d[i + 1..e]] + ShortTagIds(d[e..])
  {
    var e := TagRefSplit(d, i);
    ShortTagIdsSpec(d);
    ShortTagIdsSpec(d[..i]);
    ShortTagIdsSpec(d[e..]);
  }
}

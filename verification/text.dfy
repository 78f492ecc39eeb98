/**
  Text primitives shared by the emitters: an option type, ASCII digits,
  decimal rendering of identifiers (the `{}` formatting of a `u64`), substring
  occurrence, and newline-terminated lines.
 */
module Text {

  datatype Option<+T> = None | Some(value: T)

  predicate IsDigit(c: char) {
    '0' <= c <= '9'
  }

  /** Every character is an ASCII digit (the empty string qualifies). */
  predicate AllDigits(s: string) {
    forall k :: 0 <= k < |s| ==> IsDigit(s[k])
  }

  /** A non-empty run of ASCII digits: what `[0-9]+` accepts. */
  predicate IsDecimal(s: string) {
    |s| > 0 && AllDigits(s)
  }

  /** Length of the longest run of digits starting at `i`. */
  function DigitRun(s: string, i: nat): (n: nat)
    requires i <= |s|
    ensures i + n <= |s|
    ensures forall k :: i <= k < i + n ==> IsDigit(s[k])
    ensures i + n == |s| || !IsDigit(s[i + n])
    decreases |s| - i
  {
    if i < |s| && IsDigit(s[i]) then 1 + DigitRun(s, i + 1) else 0
  }

  /** A digit run that ends at the end of the text or at a non-digit is the longest one. */
  lemma {:induction false} DigitRunUnique(s: string, i: nat, n: nat)
    requires i + n <= |s|
    requires forall k :: i <= k < i + n ==> IsDigit(s[k])
    requires i + n == |s| || !IsDigit(s[i + n])
    ensures DigitRun(s, i) == n
    decreases n
  {
    if n > 0 {
      DigitRunUnique(s, i + 1, n - 1);
    }
  }

  function DigitChar(d: nat): (c: char)
    requires d < 10
    ensures IsDigit(c)
  {
    ('0' as int + d) as char
  }

  function DigitValue(c: char): (d: nat)
    requires IsDigit(c)
    ensures d < 10
  {
    c as int - '0' as int
  }

  /** The value of a string of digits, most significant digit first. */
  function ParseNat(s: string): nat
    requires AllDigits(s)
  {
    if s == [] then 0 else ParseNat(s[..|s| - 1]) * 10 + DigitValue(s[|s| - 1])
  }

  /**
    Decimal rendering of an identifier, as Rust's `format!("{}", id)` prints a
    `u64`: at least one digit, no leading zero, and it reads back as `n`.
   */
  function NatToString(n: nat): (r: string)
    ensures IsDecimal(r)
    ensures r[0] == '0' <==> n == 0
    ensures ParseNat(r) == n
    decreases n
  {
    if n < 10 then [DigitChar(n)]
    else
      var prefix := NatToString(n / 10);
      var r := prefix + [DigitChar(n % 10)];
      assert r[..|r| - 1] == prefix;
      r
  }

  /** Two identifiers render alike only if they are equal. */
  lemma NatToStringInjective(a: nat, b: nat)
    requires NatToString(a) == NatToString(b)
    ensures a == b
  {
    assert ParseNat(NatToString(a)) == ParseNat(NatToString(b));
  }

  predicate StartsWith(t: string, prefix: string) {
    |prefix| <= |t| && t[..|prefix|] == prefix
  }

  predicate EndsWith(t: string, suffix: string) {
    |suffix| <= |t| && t[|t| - |suffix|..] == suffix
  }

  /** `x` occurs as a contiguous piece of `t`. */
  ghost predicate Occurs(x: string, t: string) {
    exists k :: OccursAt(x, t, k)
  }

  /** `x` occurs in `t` starting at index `k`. */
  predicate OccursAt(x: string, t: string, k: int) {
    0 <= k && k + |x| <= |t| && t[k..k + |x|] == x
  }

  lemma OccursBetween(a: string, x: string, b: string)
    ensures Occurs(x, a + x + b)
  {
    var t := a + x + b;
    assert OccursAt(x, t, |a|);
  }

  lemma OccursTransitive(x: string, y: string, t: string)
    requires Occurs(x, y) && Occurs(y, t)
    ensures Occurs(x, t)
  {
    var i :| OccursAt(x, y, i);
    var j :| OccursAt(y, t, j);
    forall k | 0 <= k < |x|
      ensures t[j + i + k] == x[k]
    {
      assert y[i..i + |x|][k] == x[k];
      assert t[j..j + |y|][i + k] == y[i + k];
    }
    assert t[j + i..j + i + |x|] == x;
    assert OccursAt(x, t, j + i);
  }

  /** Both halves of `a + b` stand at their places. */
  lemma Glue(a: string, b: string)
    ensures OccursAt(a, a + b, 0) && OccursAt(b, a + b, |a|)
  {
    assert (a + b)[0..|a|] == a;
    assert (a + b)[|a|..|a| + |b|] == b;
  }

  /** Appending text keeps an occurrence where it was. */
  lemma Extend(x: string, t: string, k: nat, b: string)
    requires OccursAt(x, t, k)
    ensures OccursAt(x, t + b, k)
  {
    assert (t + b)[k..k + |x|] == t[k..k + |x|];
  }

  /** Each of five pieces stands at its place in their concatenation. */
  lemma Pieces(a: string, b: string, c: string, d: string, e: string)
    ensures var t := a + b + c + d + e;
      && OccursAt(a, t, 0)
      && OccursAt(b, t, |a|)
      && OccursAt(c, t, |a| + |b|)
      && OccursAt(d, t, |a| + |b| + |c|)
      && OccursAt(e, t, |a| + |b| + |c| + |d|)
  {
    var t2 := a + b;
    var t3 := t2 + c;
    var t4 := t3 + d;
    Glue(a, b);
    Glue(t2, c);
    Extend(a, t2, 0, c);
    Extend(b, t2, |a|, c);
    Glue(t3, d);
    Extend(a, t3, 0, d);
    Extend(b, t3, |a|, d);
    Extend(c, t3, |t2|, d);
    Glue(t4, e);
    Extend(a, t4, 0, e);
    Extend(b, t4, |a|, e);
    Extend(c, t4, |t2|, e);
    Extend(d, t4, |t3|, e);
  }

  /** An occurrence inside `t` is one inside `a + t + b`, shifted by `|a|`. */
  lemma OccursAtShift(x: string, t: string, k: nat, a: string, b: string)
    requires OccursAt(x, t, k)
    ensures OccursAt(x, a + t + b, |a| + k)
  {
    var u := a + t + b;
    assert u[|a| + k..|a| + k + |x|] == t[k..k + |x|];
  }

  lemma OccursAtStart(x: string, t: string)
    requires OccursAt(x, t, 0)
    ensures StartsWith(t, x)
  {
    assert t[..|x|] == t[0..|x|];
  }

  lemma OccursAtEnd(x: string, t: string)
    requires OccursAt(x, t, |t| - |x|)
    ensures EndsWith(t, x)
  {
    assert t[|t| - |x|..] == t[|t| - |x|..|t| - |x| + |x|];
  }

  /** Concatenation of a sequence of strings, in order. */
  function Concat(parts: seq<string>): string {
    if parts == [] then [] else parts[0] + Concat(parts[1..])
  }

  lemma {:induction false} ConcatAppend(a: seq<string>, b: seq<string>)
    ensures Concat(a + b) == Concat(a) + Concat(b)
    decreases |a|
  {
    if a == [] {
      assert a + b == b;
    } else {
      assert (a + b)[1..] == a[1..] + b;
      ConcatAppend(a[1..], b);
    }
  }

  /** `parts` joined by `sep`, as Rust's `format!("{}<sep>{}…")` lays out its arguments. */
  function JoinWith(parts: seq<string>, sep: string): string {
    if parts == [] then []
    else if |parts| == 1 then parts[0]
    else parts[0] + sep + JoinWith(parts[1..], sep)
  }

  /**
    Splitting a joined sequence at any inner index: everything before part `i`
    comes first, then the separator, then part `i` and everything after it.
   */
  lemma {:induction false} JoinWithSplit(parts: seq<string>, sep: string, i: nat)
    requires 0 < i < |parts|
    ensures JoinWith(parts, sep) == JoinWith(parts[..i], sep) + sep + JoinWith(parts[i..], sep)
    decreases i
  {
    if i == 1 {
      assert parts[..1] == [parts[0]];
      assert parts[1..] == parts[i..];
    } else {
      JoinWithSplit(parts[1..], sep, i - 1);
      assert parts[1..][..i - 1] == parts[..i][1..];
      assert parts[1..][i - 1..] == parts[i..];
    }
  }

  /** A joined sequence starts with its first part. */
  lemma JoinWithHead(parts: seq<string>, sep: string)
    requires |parts| > 0
    ensures OccursAt(parts[0], JoinWith(parts, sep), 0)
  {
    var t := JoinWith(parts, sep);
    if |parts| > 1 {
      assert t == parts[0] + (sep + JoinWith(parts[1..], sep));
    }
    assert t[..|parts[0]|] == parts[0];
  }

  /** Where part `k` starts in the joined text: after the parts before it and one separator. */
  function JoinOffset(parts: seq<string>, sep: string, k: nat): nat
    requires k < |parts|
  {
    if k == 0 then 0 else |JoinWith(parts[..k], sep)| + |sep|
  }

  /** Every part stands, unchanged, at its offset in the joined text. */
  lemma JoinWithOccursAt(parts: seq<string>, sep: string, k: nat)
    requires k < |parts|
    ensures OccursAt(parts[k], JoinWith(parts, sep), JoinOffset(parts, sep, k))
  {
    if k == 0 {
      JoinWithHead(parts, sep);
    } else {
      JoinWithSplit(parts, sep, k);
      var before := JoinWith(parts[..k], sep) + sep;
      var after := JoinWith(parts[k..], sep);
      JoinWithHead(parts[k..], sep);
      var t := JoinWith(parts, sep);
      assert t == before + after;
      var o := |before|;
      assert t[o..o + |parts[k]|] == after[..|parts[k]|];
    }
  }

  /** Parts come in order: each ends, followed by a separator, before the next begins. */
  lemma JoinWithOrder(parts: seq<string>, sep: string, j: nat, k: nat)
    requires j < k < |parts|
    ensures JoinOffset(parts, sep, j) + |parts[j]| + |sep| <= JoinOffset(parts, sep, k)
  {
    var prefix := parts[..k];
    JoinWithOccursAt(prefix, sep, j);
    if j > 0 {
      assert prefix[..j] == parts[..j];
    }
  }

  /**
    Two joins that differ in one part only: the text before that part and
    the text after it are the same in both.
   */
  lemma JoinWithReplace(p1: seq<string>, p2: seq<string>, sep: string, k: nat)
    requires |p1| == |p2| && k < |p1|
    requires forall j :: 0 <= j < |p1| && j != k ==> p1[j] == p2[j]
    ensures exists before, after ::
      && JoinWith(p1, sep) == before + p1[k] + after
      && JoinWith(p2, sep) == before + p2[k] + after
  {
    assert p1[..k] == p2[..k];
    assert p1[k + 1..] == p2[k + 1..];
    var before := if k == 0 then [] else JoinWith(p1[..k], sep) + sep;
    var after := if k + 1 == |p1| then [] else sep + JoinWith(p1[k + 1..], sep);
    JoinWithSplitAround(p1, sep, k);
    JoinWithSplitAround(p2, sep, k);
    assert JoinWith(p1, sep) == before + p1[k] + after;
    assert JoinWith(p2, sep) == before + p2[k] + after;
  }

  /** A join around part `k`: the parts before it and a separator, the part, a separator and the parts after it. */
  lemma JoinWithSplitAround(parts: seq<string>, sep: string, k: nat)
    requires k < |parts|
    ensures JoinWith(parts, sep)
         == (if k == 0 then [] else JoinWith(parts[..k], sep) + sep)
            + parts[k]
            + (if k + 1 == |parts| then [] else sep + JoinWith(parts[k + 1..], sep))
  {
    var rest := parts[k..];
    assert rest[0] == parts[k];
    assert rest[1..] == parts[k + 1..];
    if k > 0 {
      JoinWithSplit(parts, sep, k);
    }
    if k + 1 == |parts| {
      assert JoinWith(rest, sep) == parts[k];
    } else {
      assert JoinWith(rest, sep) == parts[k] + sep + JoinWith(parts[k + 1..], sep);
    }
    if k == 0 {
      assert parts == rest;
    }
  }

  /** Every part of a join occurs in it. */
  lemma OccursInJoin(parts: seq<string>, sep: string, k: nat, x: string)
    requires k < |parts| && parts[k] == x
    ensures Occurs(x, JoinWith(parts, sep))
  {
    JoinWithOccursAt(parts, sep, k);
  }

  /** Where part `k` starts in the concatenation. */
  function ConcatOffset(parts: seq<string>, k: nat): nat
    requires k <= |parts|
  {
    |Concat(parts[..k])|
  }

  /** Every part stands, unchanged, at its offset in the concatenation, in order. */
  lemma ConcatOccursAt(parts: seq<string>, k: nat)
    requires k < |parts|
    ensures OccursAt(parts[k], Concat(parts), ConcatOffset(parts, k))
    ensures ConcatOffset(parts, k) + |parts[k]| == ConcatOffset(parts, k + 1)
  {
    ConcatAround(parts, k);
    ConcatPrefixStep(parts, k);
    Glue(Concat(parts[..k]), parts[k]);
    Extend(parts[k], Concat(parts[..k]) + parts[k], |Concat(parts[..k])|, Concat(parts[k + 1..]));
  }

  /** The concatenation around part `k`. */
  lemma ConcatAround(parts: seq<string>, k: nat)
    requires k < |parts|
    ensures Concat(parts) == Concat(parts[..k]) + parts[k] + Concat(parts[k + 1..])
  {
    assert parts == parts[..k] + parts[k..];
    ConcatAppend(parts[..k], parts[k..]);
    assert parts[k..][1..] == parts[k + 1..];
  }

  /** One part longer prefix, one part more text. */
  lemma ConcatPrefixStep(parts: seq<string>, k: nat)
    requires k < |parts|
    ensures Concat(parts[..k + 1]) == Concat(parts[..k]) + parts[k]
  {
    assert parts[..k + 1] == parts[..k] + [parts[k]];
    ConcatAppend(parts[..k], [parts[k]]);
    assert [parts[k]][1..] == [];
  }

  /** Offsets into a concatenation never decrease. */
  lemma {:induction false} ConcatOffsetMonotone(parts: seq<string>, j: nat, k: nat)
    requires j <= k <= |parts|
    ensures ConcatOffset(parts, j) <= ConcatOffset(parts, k)
    decreases k - j
  {
    if j < k {
      ConcatOccursAt(parts, j);
      ConcatOffsetMonotone(parts, j + 1, k);
    }
  }

  /** Lines each terminated by a newline character. */
  function JoinLines(lines: seq<string>): string {
    if lines == [] then [] else lines[0] + "\n" + JoinLines(lines[1..])
  }

  lemma {:induction false} JoinLinesAppend(a: seq<string>, b: seq<string>)
    ensures JoinLines(a + b) == JoinLines(a) + JoinLines(b)
    decreases |a|
  {
    if a == [] {
      assert a + b == b;
    } else {
      assert (a + b)[1..] == a[1..] + b;
      JoinLinesAppend(a[1..], b);
    }
  }

  /** Index of the first newline at or after `i`, or `|t|` if there is none. */
  function NextNewline(t: string, i: nat): (k: nat)
    requires i <= |t|
    ensures i <= k <= |t|
    ensures k < |t| ==> t[k] == '\n'
    ensures forall j :: i <= j < k ==> t[j] != '\n'
    decreases |t| - i
  {
    if i == |t| || t[i] == '\n' then i else NextNewline(t, i + 1)
  }

  /** The newline-separated pieces of `t`; a final newline does not open an empty line. */
  function SplitLines(t: string): seq<string>
    decreases |t|
  {
    if t == [] then []
    else
      var k := NextNewline(t, 0);
      if k == |t| then [t] else [t[..k]] + SplitLines(t[k + 1..])
  }

  predicate NoNewline(line: string) {
    forall k :: 0 <= k < |line| ==> line[k] != '\n'
  }

  /** Text an HTML parser reads as characters only: no `<` and no `&`. */
  predicate Markupless(t: string) {
    forall k :: 0 <= k < |t| ==> t[k] != '<' && t[k] != '&'
  }

  /** One line of markup-free text. */
  predicate Plain(t: string) {
    NoNewline(t) && Markupless(t)
  }

  /** Concatenation keeps both the absence of newlines and the absence of markup. */
  lemma ConcatKeeps(a: string, b: string)
    ensures NoNewline(a) && NoNewline(b) ==> NoNewline(a + b)
    ensures Markupless(a) && Markupless(b) ==> Markupless(a + b)
  {
    forall k | |a| <= k < |a + b|
      ensures (a + b)[k] == b[k - |a|]
    {
    }
  }

  lemma DecimalPlain(s: string)
    requires IsDecimal(s)
    ensures Plain(s)
  {
    forall k | 0 <= k < |s|
      ensures s[k] != '\n' && s[k] != '<' && s[k] != '&'
    {
      assert IsDigit(s[k]);
    }
    assert NoNewline(s) && Markupless(s);
  }

  /** Plain lines joined by newlines hold no markup. */
  lemma {:induction false} JoinLinesMarkupless(lines: seq<string>)
    requires forall i :: 0 <= i < |lines| ==> Plain(lines[i])
    ensures Markupless(JoinLines(lines))
    decreases |lines|
  {
    if lines != [] {
      JoinLinesMarkupless(lines[1..]);
      var l := lines[0];
      var rest := JoinLines(lines[1..]);
      var t := JoinLines(lines);
      assert t == l + ("\n" + rest);
      forall k | 0 <= k < |t|
        ensures t[k] != '<' && t[k] != '&'
      {
        if k < |l| {
          assert t[k] == l[k];
        } else if k > |l| {
          assert t[k] == rest[k - |l| - 1];
        }
      }
    }
  }

  /** Splitting undoes joining, as long as no line holds a newline itself. */
  lemma {:induction false} SplitJoinLines(lines: seq<string>)
    requires forall i :: 0 <= i < |lines| ==> NoNewline(lines[i])
    ensures SplitLines(JoinLines(lines)) == lines
    decreases |lines|
  {
    if lines != [] {
      SplitLinesStep(lines[0], JoinLines(lines[1..]));
      SplitJoinLines(lines[1..]);
    }
  }

  /** A line and its newline come off the front as one piece. */
  lemma SplitLinesStep(l: string, rest: string)
    requires NoNewline(l)
    ensures SplitLines(l + "\n" + rest) == [l] + SplitLines(rest)
  {
    var t := l + "\n" + rest;
    assert t[|l|] == '\n';
    NewlineAt(t, l);
    assert t[..|l|] == l;
    assert t[|l| + 1..] == rest;
  }

  lemma NewlineAt(t: string, l: string)
    requires NoNewline(l) && |l| < |t| && t[..|l|] == l && t[|l|] == '\n'
    ensures NextNewline(t, 0) == |l|
  {
  }
}

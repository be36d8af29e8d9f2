/**
 * The Python string operations the workshop code relies on: slicing, `str.join`,
 * `str.split`, `in`, `str.lower`, `str.strip`, `int()` and decimal formatting.
 * Strings are sequences of characters; only ASCII letters have a case here.
 */
module Strings {
  import opened Wrappers

  /** `s[:n]` for a non-negative `n`: the first `n` elements, or all of them. */
  function Take<T>(s: seq<T>, n: nat): (r: seq<T>)
    ensures |r| == if |s| <= n then |s| else n
    ensures r <= s
  {
    if |s| <= n then s else s[..n]
  }

  /** `s[n:]` for a non-negative `n`: what follows the first `n` elements, possibly nothing. */
  function Drop<T>(s: seq<T>, n: nat): (r: seq<T>)
    ensures |r| == if |s| <= n then 0 else |s| - n
    ensures forall i :: 0 <= i < |r| ==> r[i] == s[n + i]
  {
    if |s| <= n then [] else s[n..]
  }

  // ---------------------------------------------------------------- join

  /** `sep.join(parts)`. */
  function Join(parts: seq<string>, sep: string): string
  {
    if |parts| == 0 then ""
    else if |parts| == 1 then parts[0]
    else parts[0] + sep + Join(parts[1..], sep)
  }

  /** A join of some parts starts with the first part. */
  lemma JoinHead(parts: seq<string>, sep: string)
    requires |parts| > 0
    ensures parts[0] <= Join(parts, sep)
  {
  }

  /** Appending one more part to a non-empty join adds one separator and the part. */
  lemma {:induction false} JoinSnoc(parts: seq<string>, p: string, sep: string)
    requires |parts| > 0
    ensures Join(parts + [p], sep) == Join(parts, sep) + sep + p
  {
    if |parts| == 1 {
      assert (parts + [p])[1..] == [p];
    } else {
      assert (parts + [p])[1..] == parts[1..] + [p];
      JoinSnoc(parts[1..], p, sep);
    }
  }

  /**
   * Joining one more part of a list whose first part is not empty: the part alone after
   * nothing, otherwise the join so far, the separator and the part; the join so far is
   * empty only before the first part.
   */
  lemma JoinNext(parts: seq<string>, i: nat, sep: string)
    requires |sep| > 0 && i < |parts| && parts[0] != ""
    ensures Join(parts[..i], sep) == "" <==> i == 0
    ensures Join(parts[..i + 1], sep) == if i == 0 then parts[0] else Join(parts[..i], sep) + sep + parts[i]
  {
    PrefixNext(parts, i);
    if i > 0 {
      JoinSnoc(parts[..i], parts[i], sep);
      JoinEmpty(parts[..i], sep);
      assert parts[..i][0] == parts[0];
    }
  }

  /** A join is empty exactly when there is nothing to join or a single empty part. */
  lemma JoinEmpty(parts: seq<string>, sep: string)
    requires |sep| > 0
    ensures Join(parts, sep) == "" <==> |parts| == 0 || (|parts| == 1 && parts[0] == "")
  {
    if |parts| > 1 {
      assert |Join(parts, sep)| >= |sep|;
    }
  }

  /** Every part occurs in the join, at the position the earlier parts and separators leave it. */
  lemma {:induction false} JoinContainsPart(parts: seq<string>, sep: string, i: nat)
    requires i < |parts|
    ensures Contains(Join(parts, sep), parts[i])
  {
    var j := Join(parts, sep);
    if |parts| == 1 {
      assert j[0..|parts[0]|] == parts[0];
      assert OccursAt(j, parts[0], 0);
    } else if i == 0 {
      assert j[0..|parts[0]|] == parts[0];
      assert OccursAt(j, parts[0], 0);
    } else {
      JoinContainsPart(parts[1..], sep, i - 1);
      var rest := Join(parts[1..], sep);
      var k: nat :| k <= |rest| && OccursAt(rest, parts[i], k);
      var off := |parts[0]| + |sep|;
      assert j == parts[0] + sep + rest;
      assert j[off + k..off + k + |parts[i]|] == rest[k..k + |parts[i]|];
      assert OccursAt(j, parts[i], off + k);
    }
  }

  /** `"".join(parts)`. */
  function Concat(parts: seq<string>): string
  {
    if |parts| == 0 then "" else parts[0] + Concat(parts[1..])
  }

  lemma {:induction false} ConcatAppend(a: seq<string>, b: seq<string>)
    ensures Concat(a + b) == Concat(a) + Concat(b)
  {
    if |a| == 0 {
      assert a + b == b;
    } else {
      assert (a + b)[1..] == a[1..] + b;
      ConcatAppend(a[1..], b);
    }
  }

  // ------------------------------------------------------- searching text

  predicate OccursAt(s: string, pat: string, i: nat)
  {
    i + |pat| <= |s| && s[i..i + |pat|] == pat
  }

  /** `pat in s`. */
  predicate Contains(s: string, pat: string)
  {
    exists j: nat :: j <= |s| && OccursAt(s, pat, j)
  }

  function IndexOfFrom(s: string, pat: string, from: nat): (r: Option<nat>)
    decreases |s| - from
    ensures r.Some? ==> from <= r.value && OccursAt(s, pat, r.value)
    ensures r.Some? ==> forall j: nat :: from <= j < r.value ==> !OccursAt(s, pat, j)
    ensures r.None? ==> forall j: nat :: from <= j ==> !OccursAt(s, pat, j)
  {
    if from + |pat| > |s| then None
    else if s[from..from + |pat|] == pat then Some(from)
    else IndexOfFrom(s, pat, from + 1)
  }

  /** `s.find(pat)`, with `None` for -1: the first position where `pat` occurs. */
  function IndexOf(s: string, pat: string): (r: Option<nat>)
    ensures r.Some? <==> Contains(s, pat)
    ensures r.Some? ==> OccursAt(s, pat, r.value)
    ensures r.Some? ==> forall j: nat :: j < r.value ==> !OccursAt(s, pat, j)
  {
    IndexOfFrom(s, pat, 0)
  }

  // ------------------------------------------------------------- split

  /** `s.split(sep)` for a non-empty separator: the pieces between the occurrences of `sep`, left to right. */
  function Split(s: string, sep: string): (r: seq<string>)
    requires |sep| > 0
    ensures |r| > 0
    decreases |s|
  {
    match IndexOf(s, sep)
    case None => [s]
    case Some(i) => [s[..i]] + Split(s[i + |sep|..], sep)
  }

  /** Text in which `sep` does not occur is one piece. */
  lemma SplitNoOccurrence(s: string, sep: string)
    requires |sep| > 0 && !Contains(s, sep)
    ensures Split(s, sep) == [s]
  {
  }

  /** When the first occurrence of `sep` is the one right after `a`, the first piece is `a`. */
  lemma SplitOnFirst(a: string, sep: string, b: string)
    requires |sep| > 0
    requires forall j: nat :: j < |a| ==> !OccursAt(a + sep, sep, j)
    ensures Split(a + sep + b, sep) == [a] + Split(b, sep)
  {
    var s := a + sep + b;
    assert s[|a|..|a| + |sep|] == sep;
    assert OccursAt(s, sep, |a|);
    forall j: nat | j < |a|
      ensures !OccursAt(s, sep, j)
    {
      assert s[..|a| + |sep|] == a + sep;
      assert s[j..j + |sep|] == (a + sep)[j..j + |sep|];
      assert !OccursAt(a + sep, sep, j);
    }
    var r := IndexOf(s, sep);
    assert r.Some?;
    assert r.value == |a|;
    assert s[..|a|] == a;
    assert s[|a| + |sep|..] == b;
  }

  /** A one-character separator: the only occurrences are the positions holding that character. */
  lemma CharOccurrence(s: string, c: char, j: nat)
    ensures OccursAt(s, [c], j) <==> j < |s| && s[j] == c
  {
    if j < |s| && s[j] == c {
      assert s[j..j + 1] == [c];
    }
  }

  lemma CharNotContained(a: string, c: char)
    requires c !in a
    ensures !Contains(a, [c])
    ensures forall j: nat :: j < |a| ==> !OccursAt(a + [c], [c], j)
  {
    forall j: nat ensures !OccursAt(a, [c], j) {
      CharOccurrence(a, c, j);
    }
    forall j: nat | j < |a| ensures !OccursAt(a + [c], [c], j) {
      CharOccurrence(a + [c], c, j);
    }
  }

  /** Splitting a join on a character that no part contains gives the parts back. */
  lemma {:induction false} SplitJoinChar(parts: seq<string>, c: char)
    requires |parts| > 0
    requires forall i :: 0 <= i < |parts| ==> c !in parts[i]
    ensures Split(Join(parts, [c]), [c]) == parts
  {
    if |parts| == 1 {
      CharNotContained(parts[0], c);
      SplitNoOccurrence(parts[0], [c]);
    } else {
      CharNotContained(parts[0], c);
      SplitOnFirst(parts[0], [c], Join(parts[1..], [c]));
      SplitJoinChar(parts[1..], c);
    }
  }

  /** Splitting a join on a separator whose first character no part contains gives the parts back. */
  lemma {:induction false} SplitJoin(parts: seq<string>, sep: string)
    requires |parts| > 0 && |sep| > 0
    requires forall i :: 0 <= i < |parts| ==> sep[0] !in parts[i]
    ensures Split(Join(parts, sep), sep) == parts
  {
    NoOccurrenceBefore(parts[0], sep);
    if |parts| == 1 {
      SplitNoOccurrence(parts[0], sep);
    } else {
      SplitOnFirst(parts[0], sep, Join(parts[1..], sep));
      SplitJoin(parts[1..], sep);
    }
  }

  /** Joining the pieces of a split with its separator gives the text back. */
  lemma JoinSplit(s: string, sep: string)
    requires |sep| > 0
    ensures Join(Split(s, sep), sep) == s
    decreases |s|
  {
    match IndexOf(s, sep)
    case None =>
    case Some(i) =>
      var rest := s[i + |sep|..];
      JoinSplit(rest, sep);
      var ps := Split(rest, sep);
      assert ([s[..i]] + ps)[1..] == ps;
      assert s == s[..i] + sep + rest;
  }

  /** A separator whose first character a text lacks occurs neither in it nor in it with the separator appended, before the separator itself. */
  lemma NoOccurrenceBefore(a: string, sep: string)
    requires |sep| > 0 && sep[0] !in a
    ensures !Contains(a, sep)
    ensures forall j: nat :: j < |a| ==> !OccursAt(a + sep, sep, j)
  {
    forall j: nat | j <= |a| ensures !OccursAt(a, sep, j) {
      if j + |sep| <= |a| {
        assert a[j..j + |sep|][0] == a[j];
      }
    }
    forall j: nat | j < |a| ensures !OccursAt(a + sep, sep, j) {
      assert (a + sep)[j] == a[j];
      if j + |sep| <= |a + sep| {
        assert (a + sep)[j..j + |sep|][0] == a[j];
      }
    }
  }

  /** Three pieces joined by a one-character separator none of them holds split back apart. */
  lemma SplitThree(s: string, a: string, b: string, c: string, sep: string)
    requires |sep| == 1 && s == a + sep + b + sep + c
    requires sep[0] !in a && sep[0] !in b && sep[0] !in c
    ensures Split(s, sep) == [a, b, c]
  {
    assert sep == [sep[0]];
    assert [a, b, c][1..] == [b, c] && [b, c][1..] == [c];
    assert Join([b, c], sep) == b + sep + c;
    assert s == Join([a, b, c], sep);
    SplitJoinChar([a, b, c], sep[0]);
  }

  /** The number of times `c` appears in `s`. */
  function Count(s: string, c: char): nat
  {
    if |s| == 0 then 0 else (if s[0] == c then 1 else 0) + Count(s[1..], c)
  }

  lemma {:induction false} CountAppend(a: string, b: string, c: char)
    ensures Count(a + b, c) == Count(a, c) + Count(b, c)
  {
    if |a| == 0 {
      assert a + b == b;
    } else {
      assert (a + b)[1..] == a[1..] + b;
      CountAppend(a[1..], b, c);
    }
  }

  lemma {:induction false} CountAbsent(a: string, c: char)
    requires c !in a
    ensures Count(a, c) == 0
  {
    if |a| > 0 {
      CountAbsent(a[1..], c);
    }
  }

  lemma {:induction false} CountAbsentIff(a: string, c: char)
    ensures Count(a, c) == 0 <==> c !in a
  {
    if |a| > 0 {
      CountAbsentIff(a[1..], c);
      assert a == [a[0]] + a[1..];
    }
  }

  /** A character no part contains occurs in a join only in its separators. */
  lemma {:induction false} CountJoin(parts: seq<string>, sep: string, c: char)
    requires |parts| > 0
    requires forall i :: 0 <= i < |parts| ==> c !in parts[i]
    ensures Count(Join(parts, sep), c) == (|parts| - 1) * Count(sep, c)
  {
    CountAbsent(parts[0], c);
    if |parts| > 1 {
      CountJoin(parts[1..], sep, c);
      CountAppend(parts[0], sep, c);
      CountAppend(parts[0] + sep, Join(parts[1..], sep), c);
    }
  }

  /** Splitting on a character gives one more piece than there are occurrences of it. */
  lemma {:induction false} SplitCharLength(s: string, c: char)
    ensures |Split(s, [c])| == Count(s, c) + 1
    decreases |s|
  {
    match IndexOf(s, [c])
    case None =>
      forall i | 0 <= i < |s| ensures s[i] != c {
        CharOccurrence(s, c, i);
      }
      CountAbsent(s, c);
    case Some(i) =>
      CharOccurrence(s, c, i);
      forall k | 0 <= k < i ensures s[..i][k] != c {
        CharOccurrence(s, c, k);
      }
      assert s == s[..i] + [c] + s[i + 1..];
      CountAppend(s[..i] + [c], s[i + 1..], c);
      CountAppend(s[..i], [c], c);
      CountAbsent(s[..i], c);
      SplitCharLength(s[i + 1..], c);
  }

  // -------------------------------------------------------------- case

  function LowerChar(ch: char): char
  {
    if 'A' <= ch <= 'Z' then (ch as int + 32) as char else ch
  }

  /** `s.lower()` restricted to ASCII letters. */
  function Lower(s: string): (r: string)
    ensures |r| == |s|
    ensures forall i :: 0 <= i < |s| ==> r[i] == LowerChar(s[i])
  {
    seq(|s|, i requires 0 <= i < |s| => LowerChar(s[i]))
  }

  lemma LowerAppend(a: string, b: string)
    ensures Lower(a + b) == Lower(a) + Lower(b)
  {
    assert forall i :: 0 <= i < |a + b| ==> Lower(a + b)[i] == (Lower(a) + Lower(b))[i];
  }

  // --------------------------------------------------------- whitespace

  /**
   * The characters `str.strip()` and `int()` treat as whitespace: the ASCII ones, NEL,
   * NO-BREAK SPACE, OGHAM SPACE MARK, the spaces U+2000 to U+200A, the line and paragraph
   * separators, NARROW NO-BREAK SPACE, MEDIUM MATHEMATICAL SPACE and IDEOGRAPHIC SPACE.
   */
  predicate IsSpace(ch: char)
  {
    9 <= ch as int <= 13 || 28 <= ch as int <= 32 || ch as int == 0x85 || ch as int == 0xA0
    || ch as int == 0x1680 || 0x2000 <= ch as int <= 0x200A || ch as int == 0x2028 || ch as int == 0x2029
    || ch as int == 0x202F || ch as int == 0x205F || ch as int == 0x3000
  }

  function TrimLeft(s: string): string
  {
    if |s| > 0 && IsSpace(s[0]) then TrimLeft(s[1..]) else s
  }

  function TrimRight(s: string): string
  {
    if |s| > 0 && IsSpace(s[|s| - 1]) then TrimRight(s[..|s| - 1]) else s
  }

  /** `s.strip()`. */
  function Strip(s: string): string
  {
    TrimRight(TrimLeft(s))
  }

  /** Text that neither starts nor ends with whitespace is its own strip. */
  predicate IsStripped(s: string)
  {
    |s| == 0 || (!IsSpace(s[0]) && !IsSpace(s[|s| - 1]))
  }

  // --------------------------------------------------------- integers

  predicate IsDigit(ch: char)
  {
    '0' <= ch <= '9'
  }

  predicate AllDigits(s: string)
  {
    forall i :: 0 <= i < |s| ==> IsDigit(s[i])
  }

  /** The value of a string of decimal digits. */
  function DigitsValue(s: string): nat
    requires AllDigits(s)
  {
    if |s| == 0 then 0 else DigitsValue(s[..|s| - 1]) * 10 + (s[|s| - 1] as int - '0' as int)
  }

  function NatToString(n: nat): string
  {
    if n < 10 then [('0' as int + n) as char]
    else NatToString(n / 10) + [('0' as int + n % 10) as char]
  }

  /** `f"{n}"` for an integer. */
  function IntToString(n: int): string
  {
    if n < 0 then "-" + NatToString(-n) else NatToString(n)
  }

  /** `int(s)`: surrounding whitespace, an optional sign, then at least one decimal digit. */
  function ParseInt(s: string): Option<int>
  {
    var t := Strip(s);
    if |t| > 1 && (t[0] == '-' || t[0] == '+') && AllDigits(t[1..]) then
      Some(if t[0] == '-' then -(DigitsValue(t[1..]) as int) else DigitsValue(t[1..]))
    else if |t| > 0 && AllDigits(t) then Some(DigitsValue(t))
    else None
  }

  /** Whether `int(s)` succeeds. */
  predicate IsInt(s: string)
  {
    ParseInt(s).Some?
  }

  lemma {:induction false} NatToStringDigits(n: nat)
    ensures |NatToString(n)| > 0 && AllDigits(NatToString(n))
    ensures DigitsValue(NatToString(n)) == n
  {
    if n >= 10 {
      NatToStringDigits(n / 10);
      var s := NatToString(n);
      assert s[..|s| - 1] == NatToString(n / 10);
    }
  }

  /** Formatting an integer and reading it back with `int()` gives the integer. */
  lemma ParseIntOfIntToString(n: int)
    ensures ParseInt(IntToString(n)) == Some(n)
  {
    var t := IntToString(n);
    if n < 0 {
      NatToStringDigits(-n);
      assert t[1..] == NatToString(-n);
    } else {
      NatToStringDigits(n);
    }
    assert Strip(t) == t;
  }

  /** `int(s)` of plain digits is their value. */
  lemma ParseIntOfDigits(s: string)
    requires |s| > 0 && AllDigits(s)
    ensures ParseInt(s) == Some(DigitsValue(s) as int)
  {
    assert Strip(s) == s;
  }

  /** Stripping text that has no whitespace at either end changes nothing. */
  lemma StripStripped(s: string)
    requires IsStripped(s)
    ensures Strip(s) == s
  {
  }
}

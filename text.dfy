/** Strings as Python treats them: `str.isspace`, `str.strip`, `str.join`,
    `str.split` on a one-character separator (the inverse of `join`, used to
    state the newline round-trip), the substring test `sub in s`,
    `str.endswith` and `str(n)` for a natural number. A Python `str` is
    modelled as `string`, a sequence of Unicode scalar values. */
module Text {

  /** Python's `str.isspace()` on one character: tab to carriage return, the
      separators U+001C to U+001F, the space, and the Unicode spaces. */
  predicate IsSpace(c: char)
  {
    || c == ' '
    || ('\t' <= c <= '\r')
    || ('\U{1C}' <= c <= '\U{1F}')
    || c == '\U{85}' || c == '\U{A0}' || c == '\U{1680}'
    || ('\U{2000}' <= c <= '\U{200A}')
    || c == '\U{2028}' || c == '\U{2029}' || c == '\U{202F}'
    || c == '\U{205F}' || c == '\U{3000}'
  }

  /** `sub` sits in `s` starting at index `at`. */
  predicate Occurs(s: string, sub: string, at: int)
  {
    0 <= at && at + |sub| <= |s| && s[at..at + |sub|] == sub
  }

  /** Drops the whitespace at the front: what remains is a suffix of `s`,
      everything dropped is whitespace, and what remains does not start with it. */
  function TrimStart(s: string): (r: string)
    ensures |r| <= |s| && r == s[|s| - |r|..]
    ensures forall k :: 0 <= k < |s| - |r| ==> IsSpace(s[k])
    ensures r == [] || !IsSpace(r[0])
    decreases |s|
  {
    if |s| > 0 && IsSpace(s[0]) then TrimStart(s[1..]) else s
  }

  /** Drops the whitespace at the back: the mirror image of TrimStart. */
  function TrimEnd(s: string): (r: string)
    ensures |r| <= |s| && r == s[..|r|]
    ensures forall k :: |r| <= k < |s| ==> IsSpace(s[k])
    ensures r == [] || !IsSpace(r[|r| - 1])
    decreases |s|
  {
    if |s| > 0 && IsSpace(s[|s| - 1]) then TrimEnd(s[..|s| - 1]) else s
  }

  /** Python's `s.strip()`. */
  function Strip(s: string): string
  {
    TrimEnd(TrimStart(s))
  }

  /** Neither empty nor with whitespace at either end. */
  predicate Unpadded(s: string)
  {
    s != [] && !IsSpace(s[0]) && !IsSpace(s[|s| - 1])
  }

  /** `s.strip()` is the part of `s` left once the whitespace at both ends is
      removed: it sits in `s` with only whitespace before and after it, it is
      empty exactly when `s` is all whitespace, and otherwise it begins and
      ends with a non-whitespace character. */
  lemma StripSpec(s: string)
    ensures var r := Strip(s);
            exists i :: Occurs(s, r, i)
                        && (forall k :: 0 <= k < i ==> IsSpace(s[k]))
                        && (forall k :: i + |r| <= k < |s| ==> IsSpace(s[k]))
    ensures Unpadded(Strip(s)) || Strip(s) == []
    ensures Strip(s) == [] <==> forall k :: 0 <= k < |s| ==> IsSpace(s[k])
  {
    var t := TrimStart(s);
    var r := TrimEnd(t);
    var i := |s| - |t|;
    StripPieces(s, t, r, i);
    assert r == Strip(s);
    StripShape(s, r, i);
  }

  /** A string with a non-whitespace character strips to a non-empty string
      without whitespace at its ends. */
  lemma StripKeepsNonSpace(s: string, k: int)
    requires 0 <= k < |s| && !IsSpace(s[k])
    ensures Unpadded(Strip(s))
  {
    StripSpec(s);
  }

  /** A piece of `s` with only whitespace around it, and without whitespace
      at its own ends, is empty exactly when `s` is all whitespace. */
  lemma StripShape(s: string, r: string, i: int)
    requires 0 <= i && i + |r| <= |s| && s[i..i + |r|] == r
    requires forall k :: 0 <= k < i ==> IsSpace(s[k])
    requires forall k :: i + |r| <= k < |s| ==> IsSpace(s[k])
    requires r == [] || (!IsSpace(r[0]) && !IsSpace(r[|r| - 1]))
    ensures exists i :: Occurs(s, r, i)
                        && (forall k :: 0 <= k < i ==> IsSpace(s[k]))
                        && (forall k :: i + |r| <= k < |s| ==> IsSpace(s[k]))
    ensures Unpadded(r) || r == []
    ensures r == [] <==> forall k :: 0 <= k < |s| ==> IsSpace(s[k])
  {
    assert Occurs(s, r, i);
    if r != [] {
      assert s[i] == r[0];
    }
  }

  /** The bookkeeping behind StripSpec: where the two trims cut `s`. */
  lemma StripPieces(s: string, t: string, r: string, i: int)
    requires t == TrimStart(s) && r == TrimEnd(t) && i == |s| - |t|
    ensures 0 <= i && i + |r| <= |s| && s[i..i + |r|] == r
    ensures forall k :: 0 <= k < i ==> IsSpace(s[k])
    ensures forall k :: i + |r| <= k < |s| ==> IsSpace(s[k])
    ensures r == [] || (!IsSpace(r[0]) && !IsSpace(r[|r| - 1]))
  {
    assert t == s[i..];
    assert r == t[..|r|];
    PrefixOfSuffix(s, t, r, i);
    SpaceAfterPrefix(s, t, r, i);
    if r != [] {
      assert r[0] == t[0];
    }
  }

  /** What the back trim drops from the suffix `t` of `s` is whitespace in `s`. */
  lemma SpaceAfterPrefix(s: string, t: string, r: string, i: int)
    requires 0 <= i <= |s| && t == s[i..] && |r| <= |t|
    requires forall k :: |r| <= k < |t| ==> IsSpace(t[k])
    ensures forall k :: i + |r| <= k < |s| ==> IsSpace(s[k])
  {
    forall k | i + |r| <= k < |s| ensures IsSpace(s[k]) {
      assert s[k] == t[k - i];
    }
  }

  lemma PrefixOfSuffix(s: string, t: string, r: string, i: int)
    requires 0 <= i <= |s| && t == s[i..] && |r| <= |t| && r == t[..|r|]
    ensures i + |r| <= |s| && s[i..i + |r|] == r
  {
  }

  /** A string with no whitespace at either end is its own strip. */
  lemma StripUnpadded(s: string)
    requires s == [] || Unpadded(s)
    ensures Strip(s) == s
  {
    assert TrimStart(s) == s;
  }

  /** Stripping a string that only has one space added at the end removes
      exactly that space. */
  lemma StripTrailingSpace(s: string)
    requires Unpadded(s)
    ensures Strip(s + " ") == s
  {
    var t := s + " ";
    assert TrimStart(t) == t;
    assert t[..|t| - 1] == s;
  }

  /** Whatever sits between a prefix and a suffix occurs right after the prefix. */
  lemma OccursBetween(pre: string, sub: string, post: string)
    ensures Occurs(pre + sub + post, sub, |pre|)
  {
    assert (pre + sub + post)[|pre|..|pre| + |sub|] == sub;
  }

  /** A string occurs at the end of anything it is appended to. */
  lemma OccursAtEnd(pre: string, sub: string)
    ensures Occurs(pre + sub, sub, |pre|)
  {
    assert (pre + sub)[|pre|..] == sub;
  }

  /** Prepending text moves every occurrence by the prefix's length. */
  lemma OccursShifted(pre: string, s: string, sub: string, at: int)
    requires Occurs(s, sub, at)
    ensures Occurs(pre + s, sub, |pre| + at)
  {
    assert (pre + s)[|pre| + at..|pre| + at + |sub|] == s[at..at + |sub|];
  }

  /** Appending text keeps every occurrence where it was. */
  lemma OccursExtended(s: string, sub: string, at: int, post: string)
    requires Occurs(s, sub, at)
    ensures Occurs(s + post, sub, at)
  {
    assert (s + post)[at..at + |sub|] == s[at..at + |sub|];
  }

  /** A prefix of an occurring string occurs at the same place. */
  lemma OccursPrefix(s: string, sub: string, at: int, pre: string)
    requires Occurs(s, sub, at) && pre <= sub
    ensures Occurs(s, pre, at)
  {
    assert s[at..at + |pre|] == sub[..|pre|];
  }

  /** Concatenation is associative; stated once so that proofs can regroup
      a concatenation without unfolding sequence equality. */
  lemma AppendAssoc<T>(x: seq<T>, y: seq<T>, z: seq<T>)
    ensures x + (y + z) == (x + y) + z
  {
  }

  /** Python's `sep.join(parts)`. */
  function Join(sep: string, parts: seq<string>): string
  {
    if |parts| == 0 then ""
    else if |parts| == 1 then parts[0]
    else parts[0] + sep + Join(sep, parts[1..])
  }

  /** Where the `i`-th part begins inside `Join(sep, parts)`. */
  function JoinOffset(sep: string, parts: seq<string>, i: nat): nat
    requires i <= |parts|
  {
    if i == 0 then 0 else |parts[0]| + |sep| + JoinOffset(sep, parts[1..], i - 1)
  }

  /** Each part of a join appears, verbatim, at its offset. */
  lemma {:induction false} JoinOccurs(sep: string, parts: seq<string>, i: nat)
    requires i < |parts|
    ensures Occurs(Join(sep, parts), parts[i], JoinOffset(sep, parts, i))
  {
    if i == 0 {
      if |parts| > 1 {
        assert Join(sep, parts) == parts[0] + (sep + Join(sep, parts[1..]));
      }
    } else {
      JoinOccurs(sep, parts[1..], i - 1);
      var rest := Join(sep, parts[1..]);
      var pre := parts[0] + sep;
      assert Join(sep, parts) == pre + rest;
      OccursShifted(pre, rest, parts[i], JoinOffset(sep, parts[1..], i - 1));
    }
  }

  /** Consecutive parts follow one another with exactly one separator between
      them, so the parts of a join appear in their original order. */
  lemma {:induction false} JoinOffsetStep(sep: string, parts: seq<string>, i: nat)
    requires i < |parts|
    ensures JoinOffset(sep, parts, i + 1) == JoinOffset(sep, parts, i) + |parts[i]| + |sep|
    ensures i + 1 < |parts| ==> Occurs(Join(sep, parts), sep, JoinOffset(sep, parts, i) + |parts[i]|)
  {
    if i == 0 {
      if 1 < |parts| {
        assert Join(sep, parts) == parts[0] + sep + Join(sep, parts[1..]);
        OccursBetween(parts[0], sep, Join(sep, parts[1..]));
      }
    } else {
      JoinOffsetStep(sep, parts[1..], i - 1);
      if i + 1 < |parts| {
        var pre := parts[0] + sep;
        assert Join(sep, parts) == pre + Join(sep, parts[1..]);
        OccursShifted(pre, Join(sep, parts[1..]), sep, JoinOffset(sep, parts[1..], i - 1) + |parts[i]|);
      }
    }
  }

  /** A join of a first part and at least one more is that part, the
      separator, and the join of the rest. */
  lemma JoinCons(sep: string, first: string, rest: seq<string>)
    requires |rest| >= 1
    ensures Join(sep, [first] + rest) == first + sep + Join(sep, rest)
  {
    var parts := [first] + rest;
    assert parts[0] == first && parts[1..] == rest;
  }

  /** The index of the first `c` in `s`, or `|s|` when there is none. */
  function IndexOf(s: string, c: char): (i: nat)
    ensures i <= |s|
    ensures i < |s| ==> s[i] == c
    ensures forall k :: 0 <= k < i ==> s[k] != c
    decreases |s|
  {
    if |s| == 0 then 0 else if s[0] == c then 0 else 1 + IndexOf(s[1..], c)
  }

  /** Python's `s.split(c)` for a one-character separator: never an empty
      list, and no piece contains the separator. */
  function Split(s: string, c: char): (parts: seq<string>)
    ensures |parts| >= 1
    ensures forall k :: 0 <= k < |parts| ==> c !in parts[k]
    decreases |s|
  {
    var i := IndexOf(s, c);
    if i == |s| then [s] else [s[..i]] + Split(s[i + 1..], c)
  }

  /** A string is what comes before index `i`, the character there, and what
      comes after. */
  lemma CutAt(s: string, i: int)
    requires 0 <= i < |s|
    ensures s == s[..i] + [s[i]] + s[i + 1..]
  {
  }

  /** Splitting a join gives back the parts, provided no part contains the
      separator. */
  lemma {:induction false} SplitJoin(parts: seq<string>, c: char)
    requires |parts| >= 1
    requires forall k :: 0 <= k < |parts| ==> c !in parts[k]
    ensures Split(Join([c], parts), c) == parts
  {
    var p := parts[0];
    if |parts| == 1 {
      assert IndexOf(p, c) == |p|;
    } else {
      assert c !in p;
      JoinCons([c], p, parts[1..]);
      assert [p] + parts[1..] == parts;
      SplitJoin(parts[1..], c);
      SplitAtFirst(p, c, Join([c], parts[1..]));
    }
  }

  /** Splitting at a first separator cuts off the text before it. */
  lemma SplitAtFirst(p: string, c: char, rest: string)
    requires c !in p
    ensures Split(p + [c] + rest, c) == [p] + Split(rest, c)
  {
    var s := p + [c] + rest;
    assert s[|p|] == c;
    assert forall k :: 0 <= k < |p| ==> s[k] == p[k];
    var i := IndexOf(s, c);
    assert i == |p|;
    assert s[..i] == p;
    assert s[i + 1..] == rest;
  }

  /** Joining the pieces of a split gives back the string. */
  lemma {:induction false} JoinSplit(s: string, c: char)
    ensures Join([c], Split(s, c)) == s
    decreases |s|
  {
    var i := IndexOf(s, c);
    if i < |s| {
      var tail := s[i + 1..];
      JoinSplit(tail, c);
      assert Split(s, c) == [s[..i]] + Split(tail, c);
      Rejoin(s, c, i, Split(tail, c));
    } else {
      assert Split(s, c) == [s];
    }
  }

  /** Joining the text before a separator to pieces that join to the text
      after it gives back the whole string. */
  lemma Rejoin(s: string, c: char, i: int, parts: seq<string>)
    requires 0 <= i < |s| && s[i] == c
    requires |parts| >= 1 && Join([c], parts) == s[i + 1..]
    ensures Join([c], [s[..i]] + parts) == s
  {
    JoinCons([c], s[..i], parts);
    CutAt(s, i);
  }

  /** Python's `sub in s`. */
  predicate Contains(s: string, sub: string)
    decreases |s|
  {
    sub <= s || (|s| > 0 && Contains(s[1..], sub))
  }

  /** `sub in s` holds exactly when `sub` sits in `s` at some index. */
  lemma {:induction false} ContainsIff(s: string, sub: string)
    ensures Contains(s, sub) <==> exists at :: Occurs(s, sub, at)
    decreases |s|
  {
    if sub <= s {
      assert Occurs(s, sub, 0);
    } else if |s| > 0 {
      ContainsIff(s[1..], sub);
      if Contains(s[1..], sub) {
        var at :| Occurs(s[1..], sub, at);
        OccursInTail(s, sub, at);
      }
      forall at | Occurs(s, sub, at) ensures Contains(s[1..], sub) {
        assert at != 0;
        OccursInTail(s, sub, at - 1);
      }
    }
  }

  /** `sub` sits at `at` in the tail of `s` exactly when it sits at `at + 1` in `s`. */
  lemma OccursInTail(s: string, sub: string, at: int)
    requires |s| > 0 && 0 <= at
    ensures Occurs(s[1..], sub, at) <==> Occurs(s, sub, at + 1)
  {
    if at + 1 + |sub| <= |s| {
      assert s[1..][at..at + |sub|] == s[at + 1..at + 1 + |sub|];
    }
  }

  /** A string contains anything that sits in it. */
  lemma OccursContains(s: string, sub: string, at: int)
    requires Occurs(s, sub, at)
    ensures Contains(s, sub)
  {
    ContainsIff(s, sub);
  }

  /** Python's `s.endswith(suffix)`. */
  predicate EndsWith(s: string, suffix: string)
  {
    |suffix| <= |s| && s[|s| - |suffix|..] == suffix
  }

  /** The decimal digit for `d`. */
  function Digit(d: nat): char
    requires d < 10
  {
    ('0' as int + d) as char
  }

  /** The value of a decimal digit character. */
  function DigitValue(c: char): nat
    requires '0' <= c <= '9'
  {
    (c as int) - ('0' as int)
  }

  predicate IsDecimal(s: string)
  {
    forall k :: 0 <= k < |s| ==> '0' <= s[k] <= '9'
  }

  /** Python's `str(n)` for a natural number: a non-empty run of decimal
      digits without a leading zero. */
  function NatToString(n: nat): (r: string)
    ensures |r| >= 1 && IsDecimal(r)
    ensures |r| > 1 ==> r[0] != '0'
    decreases n
  {
    if n < 10 then [Digit(n)] else NatToString(n / 10) + [Digit(n % 10)]
  }

  /** Python's `int(s)` on a non-empty run of decimal digits (the empty run,
      on which `int` raises, reads as 0 here and is never produced by `NatToString`). */
  function ParseDecimal(s: string): nat
    requires IsDecimal(s)
  {
    if |s| == 0 then 0 else 10 * ParseDecimal(s[..|s| - 1]) + DigitValue(s[|s| - 1])
  }

  /** Reading back a rendered number gives the number. */
  lemma {:induction false} ParseNatToString(n: nat)
    ensures ParseDecimal(NatToString(n)) == n
    decreases n
  {
    var r := NatToString(n);
    if n >= 10 {
      ParseNatToString(n / 10);
      assert r[..|r| - 1] == NatToString(n / 10);
    }
  }

  /** Different numbers render differently. */
  lemma NatToStringInjective(a: nat, b: nat)
    requires NatToString(a) == NatToString(b)
    ensures a == b
  {
    ParseNatToString(a);
    ParseNatToString(b);
  }
}

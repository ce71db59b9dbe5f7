/** The handful of Python string operations the ingestion code relies on:
    `str.split(sep)`, `str.replace(c, '')` and `str.strip()`. */
module Text {

  /** Python's `s.split(sep)` for a one-character separator: the text is
      cut at every occurrence of `sep`, so there is always one more part
      than there are separators, and parts may be empty. */
  function Split(s: string, sep: char): (parts: seq<string>)
    ensures |parts| >= 1
    ensures forall i :: 0 <= i < |parts| ==> sep !in parts[i]
  {
    if s == [] then [[]]
    else
      var rest := Split(s[1..], sep);
      if s[0] == sep then [[]] + rest
      else [[s[0]] + rest[0]] + rest[1..]
  }

  /** Python's `sep.join(parts)`. */
  function Join(parts: seq<string>, sep: char): string
  {
    if parts == [] then []
    else if |parts| == 1 then parts[0]
    else parts[0] + [sep] + Join(parts[1..], sep)
  }

  /** How many times `c` occurs in `s`. */
  function Occurrences(s: string, c: char): nat
  {
    if s == [] then 0 else (if s[0] == c then 1 else 0) + Occurrences(s[1..], c)
  }

  /** Splitting and re-joining gives the text back. */
  lemma {:induction false} JoinSplit(s: string, sep: char)
    ensures Join(Split(s, sep), sep) == s
  {
    if s != [] {
      JoinSplit(s[1..], sep);
      var rest := Split(s[1..], sep);
      if s[0] == sep {
        assert Split(s, sep) == [[]] + rest;
      } else {
        var parts := Split(s, sep);
        assert parts == [[s[0]] + rest[0]] + rest[1..];
        if |rest| == 1 {
          assert Join(parts, sep) == [s[0]] + rest[0];
        } else {
          assert rest == [rest[0]] + rest[1..];
          assert Join(rest, sep) == rest[0] + [sep] + Join(rest[1..], sep);
          assert Join(parts, sep) == [s[0]] + rest[0] + [sep] + Join(parts[1..], sep);
          assert parts[1..] == rest[1..];
        }
      }
    }
  }

  /** The number of fields is one more than the number of separators. */
  lemma {:induction false} SplitCount(s: string, sep: char)
    ensures |Split(s, sep)| == Occurrences(s, sep) + 1
  {
    if s != [] {
      SplitCount(s[1..], sep);
    }
  }

  /** Splitting text whose first part holds no separator keeps that part
      in front of the first part of the rest. */
  lemma {:induction false} SplitPrefix(p: string, rest: string, sep: char)
    requires sep !in p
    ensures Split(p + rest, sep) == [p + Split(rest, sep)[0]] + Split(rest, sep)[1..]
  {
    var tail := Split(rest, sep);
    if p == [] {
      assert p + rest == rest;
      assert p + tail[0] == tail[0];
      assert tail == [tail[0]] + tail[1..];
    } else {
      SplitPrefix(p[1..], rest, sep);
      var s := p + rest;
      assert s[1..] == p[1..] + rest;
      assert s[0] == p[0] != sep;
      var inner := Split(s[1..], sep);
      assert inner == [p[1..] + tail[0]] + tail[1..];
      assert Split(s, sep) == [[s[0]] + inner[0]] + inner[1..];
      assert [p[0]] + (p[1..] + tail[0]) == p + tail[0];
    }
  }

  /** Joining separator-free parts and splitting again gives the parts back. */
  lemma {:induction false} SplitJoin(parts: seq<string>, sep: char)
    requires |parts| >= 1
    requires forall i :: 0 <= i < |parts| ==> sep !in parts[i]
    ensures Split(Join(parts, sep), sep) == parts
  {
    if |parts| == 1 {
      SplitPrefix(parts[0], [], sep);
      assert parts[0] + [] == parts[0];
    } else {
      var tail := Join(parts[1..], sep);
      SplitJoin(parts[1..], sep);
      SplitPrefix(parts[0], [sep] + tail, sep);
      assert [sep] + tail != [] && ([sep] + tail)[0] == sep && ([sep] + tail)[1..] == tail;
      assert Split([sep] + tail, sep) == [[]] + parts[1..];
      assert Join(parts, sep) == parts[0] + ([sep] + tail);
      assert parts[0] + [] == parts[0];
      assert parts == [parts[0]] + parts[1..];
    }
  }

  /** Every character of a part is a character of the joined text. */
  lemma {:induction false} JoinContains(parts: seq<string>, sep: char, k: nat)
    requires k < |parts|
    ensures forall x :: x in parts[k] ==> x in Join(parts, sep)
  {
    if k > 0 {
      JoinContains(parts[1..], sep, k - 1);
    }
  }

  /** A character of the joined text is the separator or a character of
      one of the parts. */
  lemma {:induction false} JoinMembers(parts: seq<string>, sep: char, x: char)
    ensures x in Join(parts, sep) ==> x == sep || exists k :: 0 <= k < |parts| && x in parts[k]
  {
    if |parts| > 1 && x in Join(parts, sep) && x != sep && x !in parts[0] {
      JoinMembers(parts[1..], sep, x);
      var k :| 0 <= k < |parts[1..]| && x in parts[1..][k];
      assert x in parts[k + 1];
    }
  }

  /** Python's `s.replace(c, '')`: every occurrence of `c` is dropped and
      everything else is kept in order. */
  function Remove(s: string, c: char): (r: string)
    ensures c !in r
    ensures |r| <= |s|
    ensures forall x :: x in r <==> x in s && x != c
    ensures c !in s ==> r == s
  {
    if s == [] then []
    else if s[0] == c then Remove(s[1..], c)
    else [s[0]] + Remove(s[1..], c)
  }

  lemma JoinThree(a: string, b: string, c: string, sep: char)
    ensures Join([a, b, c], sep) == a + [sep] + b + [sep] + c
  {
    assert [a, b, c][1..] == [b, c] && [b, c][1..] == [c];
    assert Join([b, c], sep) == b + [sep] + c;
  }

  /** Removing a character works piece by piece. */
  lemma {:induction false} RemoveAppend(a: string, b: string, c: char)
    ensures Remove(a + b, c) == Remove(a, c) + Remove(b, c)
  {
    if a == [] {
      assert a + b == b;
    } else {
      assert (a + b)[1..] == a[1..] + b;
      RemoveAppend(a[1..], b, c);
    }
  }

  /** The characters Python's `str.isspace()` accepts, which are what a
      bare `str.strip()` removes. */
  predicate IsSpace(ch: char)
  {
    var n := ch as int;
    n == 32 || 9 <= n <= 13 || 28 <= n <= 31 || n == 0x85 || n == 0xA0 || n == 0x1680
    || 0x2000 <= n <= 0x200A || n == 0x2028 || n == 0x2029 || n == 0x202F || n == 0x205F || n == 0x3000
  }

  /** Where the run of whitespace starting at position `i` ends. */
  function SpaceRunEnd(s: string, i: nat): (n: nat)
    requires i <= |s|
    ensures i <= n <= |s|
    decreases |s| - i
  {
    if i < |s| && IsSpace(s[i]) then SpaceRunEnd(s, i + 1) else i
  }

  lemma {:induction false} SpaceRunEndRun(s: string, i: nat)
    requires i <= |s|
    ensures forall k :: i <= k < SpaceRunEnd(s, i) ==> IsSpace(s[k])
    ensures SpaceRunEnd(s, i) < |s| ==> !IsSpace(s[SpaceRunEnd(s, i)])
    decreases |s| - i
  {
    if i < |s| && IsSpace(s[i]) {
      SpaceRunEndRun(s, i + 1);
    }
  }

  /** Where the run of whitespace ending just before position `n` starts,
      looking no further back than `lo`. */
  function SpaceRunStart(s: string, lo: nat, n: nat): (m: nat)
    requires lo <= n <= |s|
    ensures lo <= m <= n
  {
    if n > lo && IsSpace(s[n - 1]) then SpaceRunStart(s, lo, n - 1) else n
  }

  lemma {:induction false} SpaceRunStartRun(s: string, lo: nat, n: nat)
    requires lo <= n <= |s|
    ensures forall k :: SpaceRunStart(s, lo, n) <= k < n ==> IsSpace(s[k])
    ensures SpaceRunStart(s, lo, n) > lo ==> !IsSpace(s[SpaceRunStart(s, lo, n) - 1])
  {
    if n > lo && IsSpace(s[n - 1]) {
      SpaceRunStartRun(s, lo, n - 1);
    }
  }

  /** The first position `strip` keeps. */
  function StripStart(s: string): (i: nat)
    ensures i <= |s|
  {
    SpaceRunEnd(s, 0)
  }

  /** The position after the last one `strip` keeps. */
  function StripEnd(s: string): (j: nat)
    ensures StripStart(s) <= j <= |s|
  {
    SpaceRunStart(s, StripStart(s), |s|)
  }

  /** Python's `s.strip()`: the text between its leading whitespace and the
      trailing whitespace of what follows. */
  function Strip(s: string): string
  {
    s[StripStart(s)..StripEnd(s)]
  }

  /** `Strip` removes only whitespace, on both sides, and leaves no
      whitespace at either end of what it keeps. */
  lemma StripInfix(s: string)
    ensures var i, j := StripStart(s), StripEnd(s);
      && Strip(s) == s[i..j]
      && (forall k :: 0 <= k < i ==> IsSpace(s[k]))
      && (forall k :: j <= k < |s| ==> IsSpace(s[k]))
      && (Strip(s) != [] ==> !IsSpace(Strip(s)[0]) && !IsSpace(Strip(s)[|Strip(s)| - 1]))
  {
    var i, j := StripStart(s), StripEnd(s);
    SpaceRunEndRun(s, 0);
    SpaceRunStartRun(s, i, |s|);
    if i < j {
      assert Strip(s)[0] == s[i] && Strip(s)[j - i - 1] == s[j - 1];
    }
  }

  /** Text that neither starts nor ends with whitespace is left alone. */
  lemma StripUnchanged(s: string)
    requires s != [] ==> !IsSpace(s[0]) && !IsSpace(s[|s| - 1])
    ensures Strip(s) == s
  {
  }

  /** Decimal digits of a natural number, as Python's `'%d'` prints it. */
  function NatToString(n: nat): (r: string)
    ensures |r| >= 1
    ensures forall i :: 0 <= i < |r| ==> '0' <= r[i] <= '9'
  {
    if n < 10 then [('0' as int + n) as char]
    else NatToString(n / 10) + [('0' as int + n % 10) as char]
  }
}

/**
 * String helpers shared by the modelled Python and C++ code. Strings are
 * sequences of characters; case mapping and whitespace are ASCII only.
 */
module StringUtils {
  import opened Wrappers

  /** Index of the first `c` in `s`, or -1. */
  function IndexOf(s: string, c: char): (r: int)
    ensures -1 <= r < |s|
    ensures r == -1 <==> c !in s
    ensures r >= 0 ==> s[r] == c && c !in s[..r]
  {
    if |s| == 0 then -1
    else if s[0] == c then 0
    else
      var t := IndexOf(s[1..], c);
      assert s[1..][..if t < 0 then 0 else t] == s[1..1 + (if t < 0 then 0 else t)];
      if t == -1 then -1 else 1 + t
  }

  /** Index of the last `c` in `s`, or -1. */
  function LastIndexOf(s: string, c: char): (r: int)
    ensures -1 <= r < |s|
    ensures r == -1 <==> c !in s
    ensures r >= 0 ==> s[r] == c && c !in s[r + 1..]
  {
    if |s| == 0 then -1
    else if s[|s| - 1] == c then |s| - 1
    else
      var t := LastIndexOf(s[..|s| - 1], c);
      DropLastSplit(s, t);
      t
  }

  /** Taking off the last character: membership, and the tail after a position. */
  lemma DropLastSplit(s: string, t: int)
    requires |s| > 0 && -1 <= t < |s| - 1
    ensures forall c :: c in s <==> c in s[..|s| - 1] || c == s[|s| - 1]
    ensures t >= 0 ==> s[t + 1..] == s[..|s| - 1][t + 1..] + [s[|s| - 1]]
  {
    assert s == s[..|s| - 1] + [s[|s| - 1]];
  }

  /** A position holding `c` with no `c` before it is the first one. */
  lemma IndexOfAt(s: string, c: char, i: nat)
    requires i < |s| && s[i] == c && c !in s[..i]
    ensures IndexOf(s, c) == i
  {
    assert s[i] in s;
    var r := IndexOf(s, c);
    assert forall k :: 0 <= k < i ==> s[..i][k] == s[k];
    assert forall k :: 0 <= k < r ==> s[..r][k] == s[k];
  }

  /** A position holding `c` with no `c` after it is the last one. */
  lemma LastIndexOfAt(s: string, c: char, i: nat)
    requires i < |s| && s[i] == c && c !in s[i + 1..]
    ensures LastIndexOf(s, c) == i
  {
    assert s[i] in s;
    var r := LastIndexOf(s, c);
    assert forall k :: i < k < |s| ==> s[i + 1..][k - i - 1] == s[k];
    assert forall k :: r < k < |s| ==> s[r + 1..][k - r - 1] == s[k];
  }

  function LowerChar(c: char): char
  {
    if 'A' <= c <= 'Z' then (c as int - 'A' as int + 'a' as int) as char else c
  }

  /** ASCII lower-casing, character by character. */
  function ToLower(s: string): (r: string)
    ensures |r| == |s|
  {
    if |s| == 0 then [] else [LowerChar(s[0])] + ToLower(s[1..])
  }

  /** Lower-casing maps each character on its own. */
  lemma {:induction false} ToLowerAt(s: string)
    ensures forall i :: 0 <= i < |s| ==> ToLower(s)[i] == LowerChar(s[i])
  {
    if |s| > 0 {
      ToLowerAt(s[1..]);
    }
  }

  lemma {:induction false} ToLowerIdempotent(s: string)
    ensures ToLower(ToLower(s)) == ToLower(s)
  {
    var once := ToLower(s);
    var twice := ToLower(once);
    ToLowerAt(s);
    ToLowerAt(once);
    assert forall i :: 0 <= i < |s| ==> twice[i] == LowerChar(LowerChar(s[i])) == once[i];
  }

  predicate StartsWith(s: string, prefix: string) { |prefix| <= |s| && s[..|prefix|] == prefix }

  predicate EndsWith(s: string, suffix: string) { |suffix| <= |s| && s[|s| - |suffix|..] == suffix }

  predicate OccursAt(s: string, sub: string, i: nat) { i + |sub| <= |s| && s[i..i + |sub|] == sub }

  /** Python's `sub in s`. */
  predicate Contains(s: string, sub: string) { exists i: nat | i <= |s| :: OccursAt(s, sub, i) }

  /** A character that is not in `s` is in no slice of it. */
  /** A character that is not in `s` does not start it and does not occur in it. */
  lemma NotContainsChar(s: string, c: char)
    requires c !in s
    ensures !StartsWith(s, [c]) && !Contains(s, [c])
  {
    if |s| >= 1 {
      assert s[..1] == [s[0]];
    }
    forall n: nat | n + 1 <= |s|
      ensures !OccursAt(s, [c], n)
    {
      assert s[n..n + 1] == [s[n]];
    }
  }

  /** First position of `sub` in `s` at or after `from`, or -1 (Python's `str.find`). */
  function FindFrom(s: string, sub: string, from: nat): (r: int)
    requires from <= |s|
    ensures r == -1 || (from <= r && OccursAt(s, sub, r))
    ensures r == -1 ==> forall i: nat :: from <= i ==> !OccursAt(s, sub, i)
    ensures r >= 0 ==> forall i: nat :: from <= i < r ==> !OccursAt(s, sub, i)
    decreases |s| - from
  {
    if OccursAt(s, sub, from) then from
    else if from == |s| then -1
    else FindFrom(s, sub, from + 1)
  }

  lemma FindIsContains(s: string, sub: string)
    ensures FindFrom(s, sub, 0) >= 0 <==> Contains(s, sub)
  {
  }

  /**
   * Python's `str.partition(sep)` with a non-empty separator: the text
   * before the first occurrence, the separator (or "") and the rest.
   */
  function Partition(s: string, sep: string): (r: (string, string, string))
    requires |sep| > 0
    ensures r.0 + r.1 + r.2 == s
    ensures r.1 == sep || (r.1 == [] && r.0 == s && r.2 == [] && !Contains(s, sep))
    ensures r.1 == sep ==> OccursAt(s, sep, |r.0|) && forall i: nat :: i < |r.0| ==> !OccursAt(s, sep, i)
  {
    var k := FindFrom(s, sep, 0);
    if k < 0 then (s, [], [])
    else
      assert s == s[..k] + sep + s[k + |sep|..];
      (s[..k], sep, s[k + |sep|..])
  }

  /** The part before the first separator character has no separator in it. */
  lemma NoSepBeforePartition(s: string, c: char)
    ensures c !in Partition(s, [c]).0
  {
    var p := Partition(s, [c]);
    assert s[..|p.0|] == p.0 by { assert p.0 + p.1 + p.2 == s; }
    forall i | 0 <= i < |p.0| ensures p.0[i] != c {
      assert !OccursAt(s, [c], i);
      assert s[i..i + 1] == [s[i]];
    }
  }

  /** Python's `str.split(sep)` for a one-character separator: empty parts are kept. */
  function Split(s: string, sep: char): (r: seq<string>)
    ensures |r| >= 1
    ensures forall k :: 0 <= k < |r| ==> sep !in r[k]
    ensures Join(r, sep) == s
  {
    var i := IndexOf(s, sep);
    if i < 0 then [s]
    else
      assert s == s[..i] + [sep] + s[i + 1..];
      [s[..i]] + Split(s[i + 1..], sep)
  }

  /** `sep.join(parts)`, the inverse of Split. */
  function Join(parts: seq<string>, sep: char): string
  {
    if |parts| == 0 then []
    else if |parts| == 1 then parts[0]
    else parts[0] + [sep] + Join(parts[1..], sep)
  }

  /** Splitting a join of separator-free parts gives the parts back. */
  lemma {:induction false} SplitOfJoin(parts: seq<string>, sep: char)
    requires |parts| >= 1
    requires forall k :: 0 <= k < |parts| ==> sep !in parts[k]
    ensures Split(Join(parts, sep), sep) == parts
  {
    if |parts| > 1 {
      SplitCons(parts[0], Join(parts[1..], sep), sep);
      SplitOfJoin(parts[1..], sep);
      assert parts == [parts[0]] + parts[1..];
    }
  }

  /** Splitting a separator-free head, the separator and a tail gives the head before the tail's parts. */
  lemma SplitCons(head: string, tail: string, sep: char)
    requires sep !in head
    ensures Split(head + [sep] + tail, sep) == [head] + Split(tail, sep)
  {
    var s := head + [sep] + tail;
    assert s[|head|] == sep && s[..|head|] == head && s[|head| + 1..] == tail;
    IndexOfAt(s, sep, |head|);
  }

  /** Removes every occurrence of `c` (Python's `s.replace(c, '')`). */
  function RemoveChar(s: string, c: char): (r: string)
    ensures c !in r
    ensures |r| <= |s|
    ensures forall x :: x != c ==> (x in r <==> x in s)
  {
    if |s| == 0 then []
    else if s[0] == c then RemoveChar(s[1..], c)
    else [s[0]] + RemoveChar(s[1..], c)
  }

  predicate IsSpace(c: char) { c == ' ' || c == '\t' || c == '\n' || c == '\r' || c == '\U{000B}' || c == '\U{000C}' }

  function StripLeft(s: string): (r: string)
    ensures |r| <= |s| && r == s[|s| - |r|..]
    ensures |r| > 0 ==> !IsSpace(r[0])
    ensures forall i :: 0 <= i < |s| - |r| ==> IsSpace(s[i])
  {
    if |s| > 0 && IsSpace(s[0]) then
      var r := StripLeft(s[1..]);
      assert s[1..][|s| - 1 - |r|..] == s[|s| - |r|..];
      assert forall i :: 1 <= i < |s| - |r| ==> s[i] == s[1..][i - 1];
      r
    else s
  }

  function StripRight(s: string): (r: string)
    ensures |r| <= |s| && r == s[..|r|]
    ensures |r| > 0 ==> !IsSpace(r[|r| - 1])
    ensures forall i :: |r| <= i < |s| ==> IsSpace(s[i])
  {
    if |s| > 0 && IsSpace(s[|s| - 1]) then StripRight(s[..|s| - 1]) else s
  }

  /** Python's `str.strip()` with no argument: space, tab, newline, carriage return, vertical tab and form feed off both ends, and nothing else. */
  function Strip(s: string): (r: string)
    ensures |r| > 0 ==> !IsSpace(r[0]) && !IsSpace(r[|r| - 1])
    ensures var i := |s| - |StripLeft(s)|;
      && i + |r| <= |s| && (forall k :: 0 <= k < |r| ==> r[k] == s[i + k])
      && (forall k :: 0 <= k < i ==> IsSpace(s[k])) && (forall k :: i + |r| <= k < |s| ==> IsSpace(s[k]))
  {
    StripEnds(s);
    StripRight(StripLeft(s))
  }

  /** Stripping adds no character: one absent from the text is absent from the result. */
  lemma StripKeepsOut(s: string, c: char)
    requires c !in s
    ensures c !in Strip(s)
  {
    var r := Strip(s);
    var i := |s| - |StripLeft(s)|;
    forall k | 0 <= k < |r|
      ensures r[k] != c
    {
      assert r[k] == s[i + k];
    }
  }

  /** The two strips drop a prefix and a suffix of `s` of nothing but the stripped characters. */
  lemma StripEnds(s: string)
    ensures var l := StripLeft(s); var i := |s| - |l|; var r := StripRight(l);
      && i + |r| <= |s| && (forall k :: 0 <= k < |r| ==> r[k] == s[i + k])
      && (forall k :: 0 <= k < i ==> IsSpace(s[k])) && (forall k :: i + |r| <= k < |s| ==> IsSpace(s[k]))
  {
    var l := StripLeft(s);
    StripEndsSuffix(s, l, |s| - |l|);
  }

  /** The characters of `s` after the second strip's result are all stripped ones. */
  lemma StripEndsSuffix(s: string, l: string, i: nat)
    requires i <= |s| && l == s[i..]
    ensures var r := StripRight(l); forall k :: i + |r| <= k < |s| ==> IsSpace(s[k])
  {
    var r := StripRight(l);
    forall k | i + |r| <= k < |s|
      ensures IsSpace(s[k])
    {
      assert s[k] == l[k - i];
    }
  }

  predicate IsDigit(c: char) { '0' <= c <= '9' }

  /** Python's `str.isdigit()` restricted to ASCII digits. */
  predicate IsDigits(s: string) { |s| > 0 && forall i :: 0 <= i < |s| ==> IsDigit(s[i]) }

  /** The value of a string of decimal digits. */
  function DigitsValue(s: string): nat
    requires forall i :: 0 <= i < |s| ==> IsDigit(s[i])
  {
    if |s| == 0 then 0
    else
      assert IsDigit(s[|s| - 1]);
      DigitsValue(s[..|s| - 1]) * 10 + (s[|s| - 1] as int - '0' as int)
  }

  /** Decimal text of `n`, without leading zeros ("0" for zero). */
  function NumberToString(n: nat): (r: string)
    ensures IsDigits(r)
    ensures DigitsValue(r) == n
    ensures |r| > 1 ==> r[0] != '0'
  {
    var d := [(n % 10 + '0' as int) as char];
    if n < 10 then d
    else
      var p := NumberToString(n / 10);
      var r := p + d;
      assert r[..|r| - 1] == p;
      r
  }

  /**
   * Python's `int(s)` for an optional sign followed by decimal digits;
   * None for anything else.
   */
  function ParseInt(s: string): (r: Option<int>)
    ensures IsDigits(s) ==> r == Some(DigitsValue(s))
    ensures |s| > 1 && s[0] == '-' && IsDigits(s[1..]) ==> r == Some(0 - DigitsValue(s[1..]))
    ensures |s| > 1 && s[0] == '+' && IsDigits(s[1..]) ==> r == Some(DigitsValue(s[1..]))
    ensures r.Some? ==> IsDigits(s) || (|s| > 1 && (s[0] == '-' || s[0] == '+') && IsDigits(s[1..]))
  {
    if IsDigits(s) then Some(DigitsValue(s))
    else if |s| > 1 && s[0] == '-' && IsDigits(s[1..]) then Some(0 - DigitsValue(s[1..]) as int)
    else if |s| > 1 && s[0] == '+' && IsDigits(s[1..]) then Some(DigitsValue(s[1..]))
    else None
  }

}

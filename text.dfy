/**
 * String helpers used across the model: the character classes the source's
 * regular expressions name, filtering and trimming, `split`/`join` with
 * JavaScript's semantics, and decimal rendering of numbers.
 */
module Text {

  // ---------------------------------------------------------------------------
  // Character classes
  // ---------------------------------------------------------------------------

  /** `[a-zA-Z]` */
  predicate IsAsciiLetter(c: char) {
    ('A' <= c <= 'Z') || ('a' <= c <= 'z')
  }

  /** `[0-9]` */
  predicate IsAsciiDigit(c: char) {
    '0' <= c <= '9'
  }

  /** `[a-zA-Z0-9_-]`, the only characters a Stripe secret key is made of */
  predicate IsKeyChar(c: char) {
    IsAsciiLetter(c) || IsAsciiDigit(c) || c == '_' || c == '-'
  }

  /** `[\x00-\x1F\x7F]`, the characters an HTTP header value must not hold */
  predicate IsControl(c: char) {
    c as int < 0x20 || c as int == 0x7F
  }

  /** `["']` */
  predicate IsQuote(c: char) {
    c == '"' || c == '\''
  }

  /**
   * JavaScript's WhiteSpace and LineTerminator code points: what `\s` matches
   * and what `String.prototype.trim` removes.
   */
  predicate IsJsSpace(c: char) {
    var n := c as int;
    (0x09 <= n <= 0x0D) || n == 0x20 || n == 0xA0 || n == 0x1680
    || (0x2000 <= n <= 0x200A) || n == 0x2028 || n == 0x2029
    || n == 0x202F || n == 0x205F || n == 0x3000 || n == 0xFEFF
  }

  predicate NotJsSpace(c: char) {
    !IsJsSpace(c)
  }

  predicate AllChars(p: char -> bool, s: string) {
    forall i :: 0 <= i < |s| ==> p(s[i])
  }

  // ---------------------------------------------------------------------------
  // Filtering and trimming
  // ---------------------------------------------------------------------------

  /** The characters of `s` that satisfy `p`, in order (`s.replace(/[^p]/g, '')`). */
  function Filter(p: char -> bool, s: string): (r: string)
    ensures |r| <= |s|
    ensures AllChars(p, r)
  {
    if s == [] then [] else (if p(s[0]) then [s[0]] else []) + Filter(p, s[1..])
  }

  lemma {:induction false} FilterConcat(p: char -> bool, a: string, b: string)
    ensures Filter(p, a + b) == Filter(p, a) + Filter(p, b)
  {
    if a == [] {
      assert a + b == b;
    } else {
      assert (a + b)[0] == a[0] && (a + b)[1..] == a[1..] + b;
      FilterConcat(p, a[1..], b);
      var head := if p(a[0]) then [a[0]] else [];
      calc {
        Filter(p, a + b);
        head + Filter(p, a[1..] + b);
        head + (Filter(p, a[1..]) + Filter(p, b));
        (head + Filter(p, a[1..])) + Filter(p, b);
      }
    }
  }

  /** Filtering keeps a string whose characters all pass. */
  lemma {:induction false} FilterKeepsAll(p: char -> bool, s: string)
    requires AllChars(p, s)
    ensures Filter(p, s) == s
  {
    if s != [] {
      FilterKeepsAll(p, s[1..]);
    }
  }

  /** Filtering with `p` after filtering with a weaker `q` is filtering with `p`. */
  lemma {:induction false} FilterAfterWeakerFilter(p: char -> bool, q: char -> bool, s: string)
    requires forall c :: p(c) ==> q(c)
    ensures Filter(p, Filter(q, s)) == Filter(p, s)
  {
    if s != [] {
      FilterAfterWeakerFilter(p, q, s[1..]);
      FilterConcat(p, if q(s[0]) then [s[0]] else [], Filter(q, s[1..]));
    }
  }

  /** `s` without its leading run of `q`-characters. */
  function DropWhile(q: char -> bool, s: string): (r: string)
    ensures |r| <= |s| && r == s[|s| - |r|..]
    ensures r != [] ==> !q(r[0])
    ensures AllChars(q, s[..|s| - |r|])
  {
    if s != [] && q(s[0]) then
      var r := DropWhile(q, s[1..]);
      assert s[1..][..|s| - 1 - |r|] == s[1..|s| - |r|];
      r
    else
      s
  }

  /** `s` without its trailing run of `q`-characters. */
  function DropWhileEnd(q: char -> bool, s: string): (r: string)
    ensures |r| <= |s| && r == s[..|r|]
    ensures r != [] ==> !q(r[|r| - 1])
    ensures AllChars(q, s[|r|..])
  {
    if s != [] && q(s[|s| - 1]) then
      var r := DropWhileEnd(q, s[..|s| - 1]);
      assert s[|r|..] == s[..|s| - 1][|r|..] + [s[|s| - 1]];
      r
    else
      s
  }

  /** Dropping characters that `p` rejects anyway does not change what `p` keeps. */
  lemma {:induction false} FilterIgnoresDropped(p: char -> bool, q: char -> bool, s: string)
    requires forall c :: q(c) ==> !p(c)
    ensures Filter(p, DropWhile(q, s)) == Filter(p, s)
  {
    var front := DropWhile(q, s);
    var dropped := s[..|s| - |front|];
    assert s == dropped + front;
    FilterConcat(p, dropped, front);
    FilterOfRejected(p, q, dropped);
    calc {
      Filter(p, s);
      Filter(p, dropped + front);
      Filter(p, dropped) + Filter(p, front);
      [] + Filter(p, front);
      Filter(p, front);
    }
  }

  lemma {:induction false} FilterIgnoresDroppedEnd(p: char -> bool, q: char -> bool, s: string)
    requires forall c :: q(c) ==> !p(c)
    ensures Filter(p, DropWhileEnd(q, s)) == Filter(p, s)
  {
    var back := DropWhileEnd(q, s);
    assert s == back + s[|back|..];
    FilterConcat(p, back, s[|back|..]);
    FilterOfRejected(p, q, s[|back|..]);
  }

  lemma {:induction false} FilterOfRejected(p: char -> bool, q: char -> bool, s: string)
    requires forall c :: q(c) ==> !p(c)
    requires AllChars(q, s)
    ensures Filter(p, s) == []
  {
    if s != [] {
      FilterOfRejected(p, q, s[1..]);
    }
  }

  /**
   * `String.prototype.trim`: the middle of `s` once its leading and trailing
   * runs of whitespace are gone, which is empty exactly when `s` is all
   * whitespace.
   */
  function Trim(s: string): (r: string)
    ensures |r| <= |s|
    ensures r != [] ==> !IsJsSpace(r[0]) && !IsJsSpace(r[|r| - 1])
    ensures exists i, j :: (0 <= i <= j <= |s| && r == s[i..j]
                             && AllChars(IsJsSpace, s[..i]) && AllChars(IsJsSpace, s[j..]))
    ensures r == [] <==> AllChars(IsJsSpace, s)
  {
    var front := DropWhile(IsJsSpace, s);
    var r := DropWhileEnd(IsJsSpace, front);
    TrimSlices(s, front, r);
    r
  }

  /** How the two trimming steps cut `s` into a leading run, the result and a trailing run. */
  lemma TrimSlices(s: string, front: string, r: string)
    requires |front| <= |s| && front == s[|s| - |front|..]
    requires |r| <= |front| && r == front[..|r|]
    requires r != [] ==> !IsJsSpace(r[0])
    requires AllChars(IsJsSpace, s[..|s| - |front|]) && AllChars(IsJsSpace, front[|r|..])
    ensures exists i, j :: (0 <= i <= j <= |s| && r == s[i..j]
                             && AllChars(IsJsSpace, s[..i]) && AllChars(IsJsSpace, s[j..]))
    ensures r == [] <==> AllChars(IsJsSpace, s)
  {
    var i := |s| - |front|;
    var j := i + |r|;
    assert s == s[..i] + front;
    assert s[j..] == front[|r|..];
    assert r == s[i..j];
    if r != [] {
      assert s[i] == r[0];
    } else {
      forall k | 0 <= k < |s|
        ensures IsJsSpace(s[k])
      {
        if k < i {
          assert s[k] == s[..i][k];
        } else {
          assert s[k] == front[k - i];
        }
      }
    }
  }

  // ---------------------------------------------------------------------------
  // Length in UTF-16 code units
  // ---------------------------------------------------------------------------

  /** Whether `c` is one UTF-16 code unit, that is, lies in the Basic Multilingual Plane. */
  predicate InBmp(c: char) {
    (c as int) < 0x10000
  }

  /** The UTF-16 encoding of `c`: itself, or a high and a low surrogate. */
  function CodeUnits(c: char): (u: seq<int>)
    ensures InBmp(c) <==> |u| == 1
  {
    var n := c as int;
    if n < 0x10000 then [n]
    else [0xD800 + (n - 0x10000) / 0x400, 0xDC00 + (n - 0x10000) % 0x400]
  }

  /** The UTF-16 encoding of `s`, the code units a JavaScript string holds. */
  function Utf16(s: string): seq<int> {
    if s == [] then [] else CodeUnits(s[0]) + Utf16(s[1..])
  }

  /**
   * `s.length` in JavaScript: one for each character of the Basic
   * Multilingual Plane and two for any other.
   */
  function Utf16Length(s: string): (n: nat)
    ensures |s| <= n <= 2 * |s|
  {
    if s == [] then 0 else (if InBmp(s[0]) then 1 else 2) + Utf16Length(s[1..])
  }

  /** The length counts exactly the code units of the encoding. */
  lemma {:induction false} Utf16LengthCountsCodeUnits(s: string)
    ensures Utf16Length(s) == |Utf16(s)|
  {
    if s != [] {
      Utf16LengthCountsCodeUnits(s[1..]);
    }
  }

  /** The JavaScript length is the number of characters exactly when every character is in the Basic Multilingual Plane. */
  lemma {:induction false} Utf16LengthOfBmp(s: string)
    ensures Utf16Length(s) == |s| <==> AllChars(InBmp, s)
  {
    if s != [] {
      Utf16LengthOfBmp(s[1..]);
      assert forall k :: 1 <= k < |s| ==> s[k] == s[1..][k - 1];
    }
  }

  /** A string made only of characters outside the Basic Multilingual Plane has twice their number as its length. */
  lemma {:induction false} Utf16LengthOutsideBmp(s: string)
    requires forall k :: 0 <= k < |s| ==> !InBmp(s[k])
    ensures Utf16Length(s) == 2 * |s|
  {
    if s != [] {
      assert forall k :: 0 <= k < |s| - 1 ==> s[1..][k] == s[k + 1];
      Utf16LengthOutsideBmp(s[1..]);
    }
  }

  lemma {:induction false} Utf16LengthConcat(a: string, b: string)
    ensures Utf16Length(a + b) == Utf16Length(a) + Utf16Length(b)
  {
    if a != [] {
      assert (a + b)[0] == a[0] && (a + b)[1..] == a[1..] + b;
      Utf16LengthConcat(a[1..], b);
    } else {
      assert a + b == b;
    }
  }

  /** A slice is never longer, in code units, than the whole. */
  lemma Utf16LengthOfSlice(s: string, i: int, j: int)
    requires 0 <= i <= j <= |s|
    ensures Utf16Length(s[i..j]) <= Utf16Length(s)
  {
    var upTo := s[..j];
    assert upTo[i..] == s[i..j];
    Utf16LengthSplit(upTo, i);
    Utf16LengthSplit(s, j);
  }

  lemma Utf16LengthSplit(s: string, k: int)
    requires 0 <= k <= |s|
    ensures Utf16Length(s[..k]) + Utf16Length(s[k..]) == Utf16Length(s)
  {
    assert s == s[..k] + s[k..];
    Utf16LengthConcat(s[..k], s[k..]);
  }

  /** Trimming never makes a string longer in code units. */
  lemma TrimUtf16Length(s: string)
    ensures Utf16Length(Trim(s)) <= Utf16Length(s)
  {
    var i, j :| 0 <= i <= j <= |s| && Trim(s) == s[i..j];
    Utf16LengthOfSlice(s, i, j);
  }

  // ---------------------------------------------------------------------------
  // Substrings
  // ---------------------------------------------------------------------------

  predicate StartsWith(s: string, prefix: string) {
    |prefix| <= |s| && s[..|prefix|] == prefix
  }

  /** `s.includes(sub)` */
  predicate Contains(s: string, sub: string)
    decreases |s|
  {
    StartsWith(s, sub) || (s != [] && Contains(s[1..], sub))
  }

  /** The index of the first `c` in `s`, or `|s|` when there is none. */
  function IndexOf(s: string, c: char): (i: nat)
    ensures i <= |s|
    ensures c !in s[..i]
    ensures i < |s| ==> s[i] == c
    ensures c !in s <==> i == |s|
  {
    if s == [] then 0 else if s[0] == c then 0 else 1 + IndexOf(s[1..], c)
  }

  /** Searching past a stretch without the character adds its length. */
  lemma {:induction false} IndexOfAfter(a: string, c: char, b: string)
    requires c !in a
    ensures IndexOf(a + b, c) == |a| + IndexOf(b, c)
  {
    if a != [] {
      assert (a + b)[1..] == a[1..] + b;
      IndexOfAfter(a[1..], c, b);
    } else {
      assert a + b == b;
    }
  }

  // ---------------------------------------------------------------------------
  // split / join
  // ---------------------------------------------------------------------------

  /** `s.split(sep)` for a non-empty separator: cut at every occurrence, left to right. */
  function Split(s: string, sep: string): (parts: seq<string>)
    requires sep != []
    ensures |parts| >= 1
    decreases |s|
  {
    if |s| < |sep| then [s]
    else if s[..|sep|] == sep then [""] + Split(s[|sep|..], sep)
    else
      var rest := Split(s[1..], sep);
      [[s[0]] + rest[0]] + rest[1..]
  }

  /** `parts.join(sep)` */
  function Join(parts: seq<string>, sep: string): string
  {
    if parts == [] then ""
    else if |parts| == 1 then parts[0]
    else parts[0] + sep + Join(parts[1..], sep)
  }

  /** Joining the pieces of a split gives the original string back. */
  lemma {:induction false} JoinSplit(s: string, sep: string)
    requires sep != []
    ensures Join(Split(s, sep), sep) == s
    decreases |s|
  {
    if |s| < |sep| {
    } else if s[..|sep|] == sep {
      JoinSplit(s[|sep|..], sep);
      JoinEmptyHead(Split(s[|sep|..], sep), sep);
      assert s == sep + s[|sep|..];
    } else {
      JoinSplit(s[1..], sep);
      JoinCharHead(s[0], Split(s[1..], sep), sep);
      assert s == [s[0]] + s[1..];
    }
  }

  /** An empty first piece contributes only the separator after it. */
  lemma JoinEmptyHead(rest: seq<string>, sep: string)
    requires rest != []
    ensures Join([""] + rest, sep) == sep + Join(rest, sep)
  {
    assert ([""] + rest)[1..] == rest;
  }

  /** A character in front of the first piece comes first in the join. */
  lemma JoinCharHead(c: char, rest: seq<string>, sep: string)
    requires rest != []
    ensures Join([[c] + rest[0]] + rest[1..], sep) == [c] + Join(rest, sep)
  {
    var parts := [[c] + rest[0]] + rest[1..];
    assert parts[1..] == rest[1..];
    if |rest| > 1 {
      assert Join(rest, sep) == rest[0] + sep + Join(rest[1..], sep);
      assert Join(parts, sep) == ([c] + rest[0]) + sep + Join(rest[1..], sep);
    }
  }

  /** A piece with no character of the separator's first letter comes back whole. */
  lemma {:induction false} SplitUnseparated(a: string, sep: string)
    requires sep != [] && sep[0] !in a
    ensures Split(a, sep) == [a]
    decreases |a|
  {
    if |a| >= |sep| {
      assert a[..|sep|][0] == a[0];
      SplitUnseparated(a[1..], sep);
      assert [a[0]] + a[1..] == a;
    }
  }

  /** A separator following a piece free of its first letter cuts exactly there. */
  lemma {:induction false} SplitAfterPiece(a: string, sep: string, rest: string)
    requires sep != [] && sep[0] !in a
    ensures Split(a + sep + rest, sep) == [a] + Split(rest, sep)
    decreases |a|
  {
    var s := a + sep + rest;
    if a == [] {
      assert s[..|sep|] == sep && s[|sep|..] == rest;
    } else {
      assert s[..|sep|][0] == a[0];
      assert s[1..] == a[1..] + sep + rest;
      SplitAfterPiece(a[1..], sep, rest);
      assert [a[0]] + a[1..] == a;
    }
  }

  /** Splitting a join gives the pieces back when no piece holds the separator's first letter. */
  lemma {:induction false} SplitJoin(parts: seq<string>, sep: string)
    requires sep != [] && parts != []
    requires forall k :: 0 <= k < |parts| ==> sep[0] !in parts[k]
    ensures Split(Join(parts, sep), sep) == parts
  {
    if |parts| == 1 {
      SplitUnseparated(parts[0], sep);
    } else {
      SplitJoin(parts[1..], sep);
      SplitAfterPiece(parts[0], sep, Join(parts[1..], sep));
      assert parts == [parts[0]] + parts[1..];
    }
  }

  // ---------------------------------------------------------------------------
  // Decimal numbers
  // ---------------------------------------------------------------------------

  function DigitChar(d: nat): (c: char)
    requires d < 10
    ensures IsAsciiDigit(c)
  {
    ('0' as int + d) as char
  }

  /** `String(n)` for a non-negative integer */
  function NatToString(n: nat): (s: string)
    ensures s != [] && AllChars(IsAsciiDigit, s)
  {
    if n < 10 then [DigitChar(n)] else NatToString(n / 10) + [DigitChar(n % 10)]
  }

  /** The value of a string of decimal digits. */
  function DigitsValue(s: string): nat
    requires AllChars(IsAsciiDigit, s)
  {
    if s == [] then 0
    else DigitsValue(s[..|s| - 1]) * 10 + (s[|s| - 1] as int - '0' as int)
  }

  /** Reading back the digits of `String(n)` gives `n`. */
  lemma {:induction false} NatToStringRoundTrip(n: nat)
    ensures DigitsValue(NatToString(n)) == n
  {
    if n >= 10 {
      NatToStringRoundTrip(n / 10);
      var s := NatToString(n);
      assert s[..|s| - 1] == NatToString(n / 10);
    }
  }

  /** Different numbers have different decimal renderings. */
  lemma NatToStringInjective(m: nat, n: nat)
    requires NatToString(m) == NatToString(n)
    ensures m == n
  {
    NatToStringRoundTrip(m);
    NatToStringRoundTrip(n);
  }

  /** `String(n)` for an integer */
  function IntToString(n: int): (s: string)
    ensures s != []
  {
    if n < 0 then "-" + NatToString(-n) else NatToString(n)
  }
}

/**
 * The JavaScript string operations the core relies on: `length` (UTF-16 code
 * units), `trim`, `toLowerCase`, substring containment and `split` on a
 * one-character separator.
 */
module Text {

  /**
   * ECMAScript WhiteSpace and LineTerminator code points: exactly what
   * `String.prototype.trim` strips and what `\s` matches in a regular expression.
   */
  predicate IsWhitespace(c: char) {
    || c == '\t' || c == '\n' || c == '\U{B}' || c == '\U{C}' || c == '\r' || c == ' '
    || c == '\U{A0}' || c == '\U{1680}' || ('\U{2000}' <= c <= '\U{200A}')
    || c == '\U{2028}' || c == '\U{2029}' || c == '\U{202F}' || c == '\U{205F}'
    || c == '\U{3000}' || c == '\U{FEFF}'
  }

  predicate AllWhitespace(s: string) {
    forall i | 0 <= i < |s| :: IsWhitespace(s[i])
  }

  /** `s.length` in JavaScript: a code point above U+FFFF takes two UTF-16 code units. */
  function Utf16Length(s: string): (n: nat)
    ensures |s| <= n <= 2 * |s|
  {
    if s == [] then 0
    else (if s[0] as int > 0xFFFF then 2 else 1) + Utf16Length(s[1..])
  }

  lemma {:induction false} Utf16LengthAppend(a: string, b: string)
    ensures Utf16Length(a + b) == Utf16Length(a) + Utf16Length(b)
  {
    if a != [] {
      assert (a + b)[1..] == a[1..] + b;
      Utf16LengthAppend(a[1..], b);
    } else {
      assert a + b == b;
    }
  }

  /** The number of leading whitespace characters of `s`. */
  function LeadingSpace(s: string): (n: nat)
    ensures n <= |s|
    ensures AllWhitespace(s[..n])
    ensures n < |s| ==> !IsWhitespace(s[n])
  {
    if s != [] && IsWhitespace(s[0]) then
      var k := LeadingSpace(s[1..]);
      assert s[..k + 1] == [s[0]] + s[1..][..k];
      k + 1
    else 0
  }

  /** The number of trailing whitespace characters of `s`. */
  function TrailingSpace(s: string): (n: nat)
    ensures n <= |s|
    ensures AllWhitespace(s[|s| - n..])
    ensures n < |s| ==> !IsWhitespace(s[|s| - n - 1])
  {
    if s != [] && IsWhitespace(s[|s| - 1]) then
      var p := s[..|s| - 1];
      var k := TrailingSpace(p);
      assert forall i | |s| - (k + 1) <= i < |s| - 1 :: s[i] == p[|p| - k..][i - (|s| - 1 - k)];
      var tail := s[|s| - (k + 1)..];
      forall i | 0 <= i < |tail| ensures IsWhitespace(tail[i]) {
        assert tail[i] == s[|s| - (k + 1) + i];
      }
      k + 1
    else 0
  }

  /** `s.trim()`: the middle of `s` once leading and trailing whitespace are removed. */
  function Trim(s: string): (r: string)
    ensures LeadingSpace(s) + |r| <= |s|
    ensures r == [] <==> AllWhitespace(s)
    ensures r != [] ==> !IsWhitespace(r[0]) && !IsWhitespace(r[|r| - 1])
    ensures r == s[LeadingSpace(s)..LeadingSpace(s) + |r|]
    ensures AllWhitespace(s[LeadingSpace(s) + |r|..])
  {
    var a := LeadingSpace(s);
    var rest := s[a..];
    var b := |rest| - TrailingSpace(rest);
    var r := rest[..b];
    assert r == s[a..a + b];
    assert s[a + b..] == rest[b..];
    assert AllWhitespace(s) ==> a == |s|;
    assert r == [] ==> AllWhitespace(s) by {
      if r == [] {
        assert b == 0 && rest[b..] == rest;
        assert s == s[..a] + rest;
        AllWhitespaceAppend(s[..a], rest);
      }
    }
    r
  }

  /** The trim is a middle slice of `s`: whitespace before it, whitespace after it. */
  lemma TrimShape(s: string)
    ensures LeadingSpace(s) + |Trim(s)| <= |s|
    ensures s == s[..LeadingSpace(s)] + Trim(s) + s[LeadingSpace(s) + |Trim(s)|..]
    ensures AllWhitespace(s[..LeadingSpace(s)]) && AllWhitespace(s[LeadingSpace(s) + |Trim(s)|..])
  {
    ThreeSlices(s, LeadingSpace(s), LeadingSpace(s) + |Trim(s)|);
  }

  /** Trimming never makes a string longer in UTF-16 code units. */
  lemma TrimShortens(s: string)
    ensures Utf16Length(Trim(s)) <= Utf16Length(s)
  {
    TrimShape(s);
    var a, t := LeadingSpace(s), Trim(s);
    Utf16LengthAppend(s[..a], t);
    Utf16LengthAppend(s[..a] + t, s[a + |t|..]);
  }

  /**
   * `trim` removes exactly the padding: a string with no whitespace at
   * either end, surrounded by whitespace, trims to itself.
   */
  lemma TrimOfPadded(p: string, m: string, q: string)
    requires AllWhitespace(p) && AllWhitespace(q)
    requires m == [] || (!IsWhitespace(m[0]) && !IsWhitespace(m[|m| - 1]))
    ensures Trim(p + m + q) == m
  {
    var s := p + m + q;
    if m == [] {
      forall i | 0 <= i < |s| ensures IsWhitespace(s[i]) {
        if i < |p| { assert s[i] == p[i]; } else { assert s[i] == q[i - |p|]; }
      }
    } else {
      var a := LeadingSpace(s);
      assert s[|p|] == m[0];
      assert a == |p|;
      var rest := s[a..];
      assert rest == m + q;
      var t := TrailingSpace(rest);
      assert rest[|rest| - |q| - 1] == m[|m| - 1];
      assert t == |q|;
      assert rest[..|rest| - t] == m;
    }
  }

  /** Whitespace added around a string does not change its trim. */
  lemma TrimIgnoresPadding(s: string, before: string, after: string)
    requires AllWhitespace(before) && AllWhitespace(after)
    ensures Trim(before + s + after) == Trim(s)
  {
    TrimShape(s);
    var a, t := LeadingSpace(s), Trim(s);
    var lead, trail := s[..a], s[a + |t|..];
    AllWhitespaceAppend(before, lead);
    AllWhitespaceAppend(trail, after);
    Regroup(before, lead, t, trail, after);
    TrimOfPadded(before + lead, t, trail + after);
  }

  lemma Regroup<T>(v: seq<T>, w: seq<T>, x: seq<T>, y: seq<T>, z: seq<T>)
    ensures v + (w + x + y) + z == (v + w) + x + (y + z)
  {
  }

  lemma AllWhitespaceAppend(a: string, b: string)
    requires AllWhitespace(a) && AllWhitespace(b)
    ensures AllWhitespace(a + b)
  {
    forall i | 0 <= i < |a + b| ensures IsWhitespace((a + b)[i]) {
      if i >= |a| { assert (a + b)[i] == b[i - |a|]; }
    }
  }

  /** Any two cut points split a sequence into three consecutive slices. */
  lemma ThreeSlices<T>(s: seq<T>, a: nat, b: nat)
    requires a <= b <= |s|
    ensures s == s[..a] + s[a..b] + s[b..]
  {
  }

  /** A string without surrounding whitespace is its own trim. */
  lemma TrimOfTrimmed(s: string)
    requires s == [] || (!IsWhitespace(s[0]) && !IsWhitespace(s[|s| - 1]))
    ensures Trim(s) == s
  {
    assert LeadingSpace(s) == 0;
    assert TrailingSpace(s) == 0;
  }

  /** Trimming twice is trimming once. */
  lemma TrimIdempotent(s: string)
    ensures Trim(Trim(s)) == Trim(s)
  {
    TrimOfTrimmed(Trim(s));
  }

  /** The capitals modelled: ASCII `A`-`Z` and the Latin-1 capitals `À`-`Þ` except `×`. */
  predicate IsUpper(c: char) {
    'A' <= c <= 'Z' || ('\U{C0}' <= c <= '\U{DE}' && c != '\U{D7}')
  }

  /** `toLowerCase` on one character: a capital becomes its small letter, 32 code points on; anything else is kept. */
  function LowerChar(c: char): (d: char)
    ensures !IsUpper(d)
    ensures IsUpper(c) ==> d as int == c as int + 32
    ensures !IsUpper(c) ==> d == c
    ensures IsWhitespace(d) == IsWhitespace(c)
  {
    if IsUpper(c) then (c as int + 32) as char
    else c
  }

  lemma LowerCharIdempotent(c: char)
    ensures LowerChar(LowerChar(c)) == LowerChar(c)
  {
  }

  /** `s.toLowerCase()`, character by character. */
  function Lower(s: string): (r: string)
    ensures |r| == |s|
  {
    seq(|s|, i requires 0 <= i < |s| => LowerChar(s[i]))
  }

  /** The lowered string has no capitals, and keeps every other character where it was. */
  lemma LowerLowers(s: string)
    ensures forall i | 0 <= i < |s| :: !IsUpper(Lower(s)[i])
    ensures forall i | 0 <= i < |s| && !IsUpper(s[i]) :: Lower(s)[i] == s[i]
    ensures forall i | 0 <= i < |s| && IsUpper(s[i]) :: Lower(s)[i] as int == s[i] as int + 32
  {
  }

  lemma LowerIdempotent(s: string)
    ensures Lower(Lower(s)) == Lower(s)
  {
    forall i | 0 <= i < |s| ensures Lower(Lower(s))[i] == Lower(s)[i] {
      LowerCharIdempotent(s[i]);
    }
  }

  lemma LowerExample()
    ensures Lower("Alice@X.com") == "alice@x.com"
  {
  }

  lemma LowerSlice(s: string, i: nat, j: nat)
    requires i <= j <= |s|
    ensures Lower(s[i..j]) == Lower(s)[i..j]
  {
  }

  /** Strings whose characters agree on being whitespace have the same leading whitespace. */
  lemma {:induction false} LeadingSpaceSameShape(s: string, t: string)
    requires |s| == |t|
    requires forall i | 0 <= i < |s| :: IsWhitespace(s[i]) == IsWhitespace(t[i])
    ensures LeadingSpace(s) == LeadingSpace(t)
  {
    if s != [] && IsWhitespace(s[0]) {
      LeadingSpaceSameShape(s[1..], t[1..]);
    }
  }

  lemma {:induction false} TrailingSpaceSameShape(s: string, t: string)
    requires |s| == |t|
    requires forall i | 0 <= i < |s| :: IsWhitespace(s[i]) == IsWhitespace(t[i])
    ensures TrailingSpace(s) == TrailingSpace(t)
  {
    if s != [] && IsWhitespace(s[|s| - 1]) {
      TrailingSpaceSameShape(s[..|s| - 1], t[..|t| - 1]);
    }
  }

  /** Lowercasing never turns whitespace into non-whitespace, so it commutes with trimming. */
  lemma LowerTrimCommute(s: string)
    ensures Lower(Trim(s)) == Trim(Lower(s))
  {
    var l := Lower(s);
    LeadingSpaceSameShape(s, l);
    var a := LeadingSpace(s);
    var rest, lrest := s[a..], l[a..];
    assert lrest == Lower(rest);
    TrailingSpaceSameShape(rest, lrest);
    var b := |rest| - TrailingSpace(rest);
    LowerSlice(rest, 0, b);
    assert Trim(s) == rest[..b];
    assert Trim(l) == lrest[..b];
  }

  /** `hay.includes(needle)`: `needle` occurs in `hay` at some offset. */
  predicate Contains(hay: string, needle: string) {
    exists i | 0 <= i <= |hay| - |needle| :: OccursAt(hay, needle, i)
  }

  predicate OccursAt(hay: string, needle: string, i: nat)
    requires i + |needle| <= |hay|
  {
    hay[i..i + |needle|] == needle
  }

  /** Case-insensitive containment, as an `insensitive` string filter evaluates it. */
  predicate ContainsInsensitive(hay: string, needle: string) {
    Contains(Lower(hay), Lower(needle))
  }

  /** A name that contains the needle verbatim also contains it ignoring case. */
  lemma ContainsIsInsensitive(hay: string, needle: string)
    requires Contains(hay, needle)
    ensures ContainsInsensitive(hay, needle)
  {
    var i :| 0 <= i <= |hay| - |needle| && OccursAt(hay, needle, i);
    LowerSlice(hay, i, i + |needle|);
    assert OccursAt(Lower(hay), Lower(needle), i);
  }

  /** `s.split(sep)` for a one-character separator: always at least one piece, none containing `sep`. */
  function Split(s: string, sep: char): (pieces: seq<string>)
    ensures |pieces| >= 1
    ensures forall k | 0 <= k < |pieces| :: sep !in pieces[k]
  {
    if s == [] then [[]]
    else
      var rest := Split(s[1..], sep);
      if s[0] == sep then [[]] + rest
      else [[s[0]] + rest[0]] + rest[1..]
  }

  /** `pieces.join(sep)`. */
  function Join(pieces: seq<string>, sep: char): string
    requires |pieces| >= 1
  {
    if |pieces| == 1 then pieces[0] else pieces[0] + [sep] + Join(pieces[1..], sep)
  }

  /** Splitting loses nothing: joining the pieces gives back the string. */
  lemma {:induction false} JoinSplit(s: string, sep: char)
    ensures Join(Split(s, sep), sep) == s
  {
    if s != [] {
      var rest := Split(s[1..], sep);
      JoinSplit(s[1..], sep);
      if s[0] != sep && |rest| > 1 {
        assert rest == [rest[0]] + rest[1..];
      }
    }
  }

  /** Splitting a join of separator-free pieces gives back exactly those pieces. */
  lemma {:induction false} SplitJoin(pieces: seq<string>, sep: char)
    requires |pieces| >= 1
    requires forall k | 0 <= k < |pieces| :: sep !in pieces[k]
    ensures Split(Join(pieces, sep), sep) == pieces
  {
    if |pieces| == 1 {
      SplitNoSeparator(pieces[0], sep);
    } else {
      SplitJoin(pieces[1..], sep);
      SplitAfterPiece(pieces[0], Join(pieces[1..], sep), sep);
      assert pieces == [pieces[0]] + pieces[1..];
    }
  }

  lemma {:induction false} SplitNoSeparator(s: string, sep: char)
    requires sep !in s
    ensures Split(s, sep) == [s]
  {
    if s != [] {
      SplitNoSeparator(s[1..], sep);
      assert [s[0]] + s[1..] == s;
    }
  }

  lemma {:induction false} SplitAfterPiece(p: string, t: string, sep: char)
    requires sep !in p
    ensures Split(p + [sep] + t, sep) == [p] + Split(t, sep)
  {
    if p == [] {
      assert p + [sep] + t == [sep] + t;
      assert ([sep] + t)[1..] == t;
    } else {
      var s := p + [sep] + t;
      assert s[1..] == p[1..] + [sep] + t;
      SplitAfterPiece(p[1..], t, sep);
      assert [p[0]] + p[1..] == p;
    }
  }
}

/** String operations the frontend and the backend lean on: splitting on a
    separator and joining back, whitespace trimming, ASCII lower-casing,
    substring search, decimal rendering of integers and JavaScript's
    `parseInt`. Strings are sequences of characters. */
module Text {
  import opened Wrappers
  import Lists

  /* ---------------------------------------------------------------------- */
  /* Split and join                                                          */
  /* ---------------------------------------------------------------------- */

  /** `parts.join(sep)`: the parts with one separator between neighbours;
      the empty list joins to the empty string. */
  function Join(parts: seq<string>, sep: char): string
  {
    if |parts| == 0 then ""
    else if |parts| == 1 then parts[0]
    else parts[0] + [sep] + Join(parts[1..], sep)
  }

  /** No part contains the separator. */
  predicate SepFree(parts: seq<string>, sep: char)
  {
    forall i :: 0 <= i < |parts| ==> sep !in parts[i]
  }

  /** `s.split(sep)` for a one-character separator, as JavaScript's
      `String.prototype.split` and Python's `str.split` both behave: always at
      least one piece (`"".split(",")` is `[""]`), no piece holds the
      separator, and joining the pieces gives `s` back. */
  function Split(s: string, sep: char): (parts: seq<string>)
    ensures |parts| >= 1
    ensures SepFree(parts, sep)
    ensures Join(parts, sep) == s
    decreases |s|
  {
    if |s| == 0 then [""]
    else
      var rest := Split(s[1..], sep);
      if s[0] == sep then
        assert s == [sep] + s[1..];
        [""] + rest
      else
        var parts := [[s[0]] + rest[0]] + rest[1..];
        assert parts[1..] == rest[1..];
        assert |rest| > 1 ==> Join(rest, sep) == rest[0] + [sep] + Join(rest[1..], sep);
        assert s == [s[0]] + s[1..];
        parts
  }

  lemma {:induction false} SplitSepFree(p: string, sep: char)
    requires sep !in p
    ensures Split(p, sep) == [p]
    decreases |p|
  {
    if |p| > 0 {
      SplitSepFree(p[1..], sep);
      assert [p[0]] + p[1..] == p;
    }
  }

  lemma {:induction false} SplitAfterPiece(p: string, t: string, sep: char)
    requires sep !in p
    ensures Split(p + [sep] + t, sep) == [p] + Split(t, sep)
    decreases |p|
  {
    var s := p + [sep] + t;
    if |p| == 0 {
      assert s[1..] == t;
    } else {
      assert s[1..] == p[1..] + [sep] + t;
      SplitAfterPiece(p[1..], t, sep);
      assert [p[0]] + p[1..] == p;
    }
  }

  /** Splitting a join gives the parts back, provided there is at least one
      part and no part holds the separator. */
  lemma {:induction false} SplitJoin(parts: seq<string>, sep: char)
    requires |parts| >= 1
    requires SepFree(parts, sep)
    ensures Split(Join(parts, sep), sep) == parts
  {
    if |parts| == 1 {
      SplitSepFree(parts[0], sep);
    } else {
      SplitJoin(parts[1..], sep);
      SplitAfterPiece(parts[0], Join(parts[1..], sep), sep);
      assert [parts[0]] + parts[1..] == parts;
    }
  }

  /** Joining at least one non-empty part gives a non-empty string. */
  lemma {:induction false} JoinNonEmpty(parts: seq<string>, sep: char)
    requires |parts| >= 1 && parts[0] != ""
    ensures Join(parts, sep) != ""
  {
    if |parts| > 1 {
      assert |Join(parts, sep)| >= |parts[0]|;
    }
  }

  /* ---------------------------------------------------------------------- */
  /* Whitespace trimming                                                     */
  /* ---------------------------------------------------------------------- */

  /** The ASCII whitespace characters that JavaScript's `trim` and Python's
      `strip` both remove: space, tab, line feed, vertical tab, form feed and
      carriage return. Python's `strip` also removes the ASCII separators
      `\x1c` to `\x1f`, which JavaScript's `trim` keeps; they are not
      counted here. */
  predicate IsSpace(c: char)
  {
    c == ' ' || c == '\t' || c == '\n' || c == '\U{B}' || c == '\U{C}' || c == '\r'
  }

  predicate AllSpace(s: string)
  {
    forall i :: 0 <= i < |s| ==> IsSpace(s[i])
  }

  /** Neither end of `s` is whitespace. */
  predicate IsTrimmed(s: string)
  {
    s == [] || (!IsSpace(s[0]) && !IsSpace(s[|s| - 1]))
  }

  /** How many whitespace characters `s` starts with. */
  function LeadingSpaces(s: string): (n: nat)
    ensures n <= |s|
    ensures forall i :: 0 <= i < n ==> IsSpace(s[i])
    ensures n < |s| ==> !IsSpace(s[n])
  {
    if |s| > 0 && IsSpace(s[0]) then
      var n := 1 + LeadingSpaces(s[1..]);
      assert forall i :: 1 <= i < |s| ==> s[i] == s[1..][i - 1];
      n
    else 0
  }

  /** How many whitespace characters `s` ends with. */
  function TrailingSpaces(s: string): (n: nat)
    ensures n <= |s|
    ensures forall i :: |s| - n <= i < |s| ==> IsSpace(s[i])
    ensures n < |s| ==> !IsSpace(s[|s| - 1 - n])
  {
    if |s| > 0 && IsSpace(s[|s| - 1]) then
      1 + TrailingSpaces(s[..|s| - 1])
    else 0
  }

  /** `s` without its leading whitespace (`trimStart`, `lstrip`). */
  function TrimStart(s: string): (r: string)
    ensures r == [] || !IsSpace(r[0])
  {
    s[LeadingSpaces(s)..]
  }

  /** `s.trim()` / `s.strip()`: both ends stripped of whitespace. */
  function Trim(s: string): (r: string)
    ensures IsTrimmed(r)
    ensures |r| <= |s|
  {
    var t := TrimStart(s);
    t[..|t| - TrailingSpaces(t)]
  }

  /** The whitespace `Trim` removes from the front of `s`. */
  function LeadingSpace(s: string): string
  {
    s[..LeadingSpaces(s)]
  }

  /** The whitespace `Trim` removes from the back of `s`. */
  function TrailingSpace(s: string): string
  {
    var t := TrimStart(s);
    t[|t| - TrailingSpaces(t)..]
  }

  /** Trim only removes whitespace: `s` is some whitespace, then `Trim(s)`,
      then some whitespace. */
  lemma TrimSplitsOffSpace(s: string)
    ensures AllSpace(LeadingSpace(s)) && AllSpace(TrailingSpace(s))
    ensures s == LeadingSpace(s) + Trim(s) + TrailingSpace(s)
  {
    LeadingSpaceIsSpace(s);
    TrailingSpaceIsSpace(s);
    TrimSplitsEquation(s);
  }

  lemma LeadingSpaceIsSpace(s: string)
    ensures AllSpace(LeadingSpace(s))
  {
    var n := LeadingSpaces(s);
    forall i | 0 <= i < n ensures IsSpace(s[..n][i]) {
      assert s[..n][i] == s[i];
    }
  }

  lemma TrailingSpaceIsSpace(s: string)
    ensures AllSpace(TrailingSpace(s))
  {
    var t := TrimStart(s);
    var k := |t| - TrailingSpaces(t);
    forall i | 0 <= i < |t| - k ensures IsSpace(t[k..][i]) {
      assert t[k..][i] == t[k + i];
    }
  }

  lemma TrimSplitsEquation(s: string)
    ensures s == LeadingSpace(s) + Trim(s) + TrailingSpace(s)
  {
    var n := LeadingSpaces(s);
    var t := TrimStart(s);
    var k := |t| - TrailingSpaces(t);
    assert LeadingSpace(s) == s[..n];
    assert Trim(s) == s[n..][..k];
    assert TrailingSpace(s) == s[n..][k..];
    ConcatSlices(s, n, k);
  }

  /** Cutting a sequence in three and gluing the parts gives it back. */
  lemma ConcatSlices<T>(s: seq<T>, n: int, k: int)
    requires 0 <= n <= |s| && 0 <= k <= |s| - n
    ensures s[..n] + s[n..][..k] + s[n..][k..] == s
  {
    assert s[n..][..k] + s[n..][k..] == s[n..];
  }

  /** Every character of `Trim(s)` comes from `s`. */
  lemma TrimKeepsChars(s: string)
    ensures forall c :: c in Trim(s) ==> c in s
  {
    TrimSplitsOffSpace(s);
  }

  lemma {:induction false} LeadingSpacesOfPadded(x: string, m: string)
    requires AllSpace(x)
    requires m == [] || !IsSpace(m[0])
    ensures LeadingSpaces(x + m) == |x|
    decreases |x|
  {
    if |x| > 0 {
      assert (x + m)[1..] == x[1..] + m;
      LeadingSpacesOfPadded(x[1..], m);
    } else {
      assert x + m == m;
    }
  }

  lemma {:induction false} TrailingSpacesOfPadded(m: string, y: string)
    requires AllSpace(y)
    requires m == [] || !IsSpace(m[|m| - 1])
    ensures TrailingSpaces(m + y) == |y|
    decreases |y|
  {
    if |y| > 0 {
      assert (m + y)[..|m + y| - 1] == m + y[..|y| - 1];
      TrailingSpacesOfPadded(m, y[..|y| - 1]);
    } else {
      assert m + y == m;
    }
  }

  /** Trimming a trimmed string padded with whitespace on both sides gives the
      trimmed string back; together with `TrimSplitsOffSpace` this pins `Trim`
      down completely. */
  lemma TrimPadded(x: string, m: string, y: string)
    requires AllSpace(x) && AllSpace(y) && IsTrimmed(m)
    ensures Trim(x + m + y) == m
  {
    if m == [] {
      assert x + m + y == (x + y) + m;
      assert AllSpace(x + y);
      LeadingSpacesOfPadded(x + y, m);
    } else {
      assert x + m + y == x + (m + y);
      LeadingSpacesOfPadded(x, m + y);
      assert TrimStart(x + m + y) == m + y;
      TrailingSpacesOfPadded(m, y);
    }
  }

  /** A trimmed string is left alone. */
  lemma TrimOfTrimmed(s: string)
    requires IsTrimmed(s)
    ensures Trim(s) == s
  {
    TrimPadded([], s, []);
    assert [] + s + [] == s;
  }

  /* ---------------------------------------------------------------------- */
  /* Split, trim each piece, drop empty pieces                               */
  /* ---------------------------------------------------------------------- */

  /** Each piece trimmed. */
  function TrimEach(pieces: seq<string>): (r: seq<string>)
    ensures |r| == |pieces|
    ensures forall i :: 0 <= i < |pieces| ==> r[i] == Trim(pieces[i])
  {
    if |pieces| == 0 then [] else [Trim(pieces[0])] + TrimEach(pieces[1..])
  }

  /** Each piece trimmed and the empty ones dropped, order kept. */
  function TrimAndDropEmpty(pieces: seq<string>): (r: seq<string>)
    ensures |r| <= |pieces|
    ensures forall i :: 0 <= i < |r| ==> r[i] != "" && IsTrimmed(r[i])
  {
    if |pieces| == 0 then []
    else
      var rest := TrimAndDropEmpty(pieces[1..]);
      var t := Trim(pieces[0]);
      if t == "" then rest else [t] + rest
  }

  /** What survives is exactly the non-empty trimmed pieces. */
  lemma {:induction false} TrimAndDropEmptyMembers(pieces: seq<string>, w: string)
    ensures w in TrimAndDropEmpty(pieces) <==> w != "" && w in TrimEach(pieces)
  {
    if |pieces| > 0 {
      TrimAndDropEmptyMembers(pieces[1..], w);
      assert TrimEach(pieces) == [Trim(pieces[0])] + TrimEach(pieces[1..]);
    }
  }

  /** The test of `.filter(Boolean)` (or `if o.strip()`) on a string. */
  predicate NotEmpty(t: string)
  {
    t != ""
  }

  /** Dropping the empty pieces is filtering the trimmed pieces: the
      survivors keep their order and their repetitions. */
  lemma {:induction false} TrimAndDropEmptyIsFilter(pieces: seq<string>)
    ensures TrimAndDropEmpty(pieces) == Lists.Filter(TrimEach(pieces), NotEmpty)
  {
    if |pieces| > 0 {
      TrimAndDropEmptyIsFilter(pieces[1..]);
      assert TrimEach(pieces)[1..] == TrimEach(pieces[1..]);
    }
  }

  /** The comma-list pipeline shared by the product `size` field and the
      `FRONTEND_ORIGIN` setting: split on `sep`, trim each piece, drop empty
      pieces, keep the order. Every surviving piece is non-empty, trimmed and
      free of the separator. */
  function SplitTrimmed(s: string, sep: char): (r: seq<string>)
    ensures forall i :: 0 <= i < |r| ==> r[i] != "" && IsTrimmed(r[i]) && sep !in r[i]
  {
    var pieces := Split(s, sep);
    var r := TrimAndDropEmpty(pieces);
    forall i | 0 <= i < |r|
      ensures sep !in r[i]
    {
      TrimAndDropEmptyMembers(pieces, r[i]);
      var j :| 0 <= j < |pieces| && TrimEach(pieces)[j] == r[i];
      TrimKeepsChars(pieces[j]);
    }
    r
  }

  /** The pipeline is exactly the filter of the trimmed pieces: it keeps
      their order, and every non-empty trimmed piece as often as it occurs. */
  lemma SplitTrimmedIsFilter(s: string, sep: char)
    ensures SplitTrimmed(s, sep) == Lists.Filter(TrimEach(Split(s, sep)), NotEmpty)
    ensures Lists.IsSubsequence(SplitTrimmed(s, sep), TrimEach(Split(s, sep)))
    ensures forall w | w != "" :: multiset(SplitTrimmed(s, sep))[w] == multiset(TrimEach(Split(s, sep)))[w]
  {
    var trimmed := TrimEach(Split(s, sep));
    TrimAndDropEmptyIsFilter(Split(s, sep));
    Lists.FilterMultiset(trimmed, NotEmpty);
    forall w | w != ""
      ensures multiset(SplitTrimmed(s, sep))[w] == multiset(trimmed)[w]
    {
      if w !in trimmed {
        assert multiset(SplitTrimmed(s, sep))[w] <= multiset(trimmed)[w];
      }
    }
  }

  /** A string survives the pipeline exactly when it is the non-empty trim of
      one of the pieces. */
  lemma SplitTrimmedMembers(s: string, sep: char, w: string)
    ensures w in SplitTrimmed(s, sep) <==> w != "" && exists i :: 0 <= i < |Split(s, sep)| && Trim(Split(s, sep)[i]) == w
  {
    var pieces := Split(s, sep);
    TrimAndDropEmptyMembers(pieces, w);
    if w in TrimEach(pieces) {
      var i :| 0 <= i < |pieces| && TrimEach(pieces)[i] == w;
      assert Trim(pieces[i]) == w;
    }
  }

  lemma {:induction false} TrimAndDropEmptyClean(parts: seq<string>)
    requires forall i :: 0 <= i < |parts| ==> parts[i] != "" && IsTrimmed(parts[i])
    ensures TrimAndDropEmpty(parts) == parts
  {
    if |parts| > 0 {
      TrimOfTrimmed(parts[0]);
      TrimAndDropEmptyClean(parts[1..]);
      assert [parts[0]] + parts[1..] == parts;
    }
  }

  /** Round trip: joining clean pieces (non-empty, trimmed, separator-free)
      and running the pipeline over the result gives the pieces back. */
  lemma SplitTrimmedJoin(parts: seq<string>, sep: char)
    requires |parts| >= 1
    requires forall i :: 0 <= i < |parts| ==> parts[i] != "" && IsTrimmed(parts[i]) && sep !in parts[i]
    ensures SplitTrimmed(Join(parts, sep), sep) == parts
  {
    SplitJoin(parts, sep);
    TrimAndDropEmptyClean(parts);
  }

  /** A blank in front of a trimmed string is what `Trim` removes. */
  lemma TrimAfterBlank(m: string)
    requires IsTrimmed(m)
    ensures Trim(" " + m) == m
  {
    TrimPadded(" ", m, "");
    assert " " + m + "" == " " + m;
  }

  /** The pieces of "M, L, XL" between its commas. */
  lemma {:induction false} SplitThree(a: string, b: string, c: string, sep: char)
    requires sep !in a && sep !in b && sep !in c
    ensures Split(a + [sep] + b + [sep] + c, sep) == [a, b, c]
  {
    var t := b + [sep] + c;
    SplitSepFree(c, sep);
    SplitAfterPiece(b, c, sep);
    assert Split(t, sep) == [b, c];
    SplitAfterPiece(a, t, sep);
    assert a + [sep] + b + [sep] + c == a + [sep] + t;
  }

  /** Three clean pieces, the last two behind a blank, trim back to the
      pieces. */
  lemma TrimBlankPrefixed(a: string, b: string, c: string)
    requires a != "" && b != "" && c != ""
    requires IsTrimmed(a) && IsTrimmed(b) && IsTrimmed(c)
    ensures TrimAndDropEmpty([a, " " + b, " " + c]) == [a, b, c]
  {
    var pieces := [a, " " + b, " " + c];
    TrimOfTrimmed(a);
    TrimAfterBlank(b);
    TrimAfterBlank(c);
    assert pieces[1..][1..][1..] == [];
    assert TrimAndDropEmpty(pieces[1..][1..]) == [c];
    assert TrimAndDropEmpty(pieces[1..]) == [b, c];
  }

  /** Three clean pieces joined by the separator and a blank split and trim
      back to the pieces. */
  lemma SplitTrimmedSpaced(a: string, b: string, c: string, sep: char)
    requires a != "" && b != "" && c != ""
    requires IsTrimmed(a) && IsTrimmed(b) && IsTrimmed(c)
    requires sep !in a && sep !in b && sep !in c && sep != ' '
    ensures SplitTrimmed(a + [sep] + (" " + b) + [sep] + (" " + c), sep) == [a, b, c]
  {
    SplitThree(a, " " + b, " " + c, sep);
    TrimBlankPrefixed(a, b, c);
  }

  lemma SplitTrimmedSpacedList()
    ensures SplitTrimmed("M, L, XL", ',') == ["M", "L", "XL"]
  {
    assert "M" + [','] + (" " + "L") + [','] + (" " + "XL") == "M, L, XL";
    SplitTrimmedSpaced("M", "L", "XL", ',');
  }

  /** Worked case: pieces holding only blanks vanish altogether. */
  lemma SplitTrimmedOnlyBlanks()
    ensures SplitTrimmed(" , ", ',') == []
  {
    var pieces := [" ", " "];
    assert Split(" , ", ',') == pieces by {
      SplitSepFree(" ", ',');
      SplitAfterPiece(" ", " ", ',');
      assert " " + [','] + " " == " , ";
    }
    TrimAfterBlank("");
    assert " " + "" == " ";
    assert pieces[1..][1..] == [];
    assert TrimAndDropEmpty(pieces[1..]) == [];
  }

  /* ---------------------------------------------------------------------- */
  /* Lower-casing and substring search                                       */
  /* ---------------------------------------------------------------------- */

  /** ASCII lower-casing of one character. */
  function LowerChar(c: char): char
  {
    if 'A' <= c <= 'Z' then (c as int - 'A' as int + 'a' as int) as char else c
  }

  /** `s.toLowerCase()`, restricted to ASCII letters. */
  function Lower(s: string): (r: string)
    ensures |r| == |s|
    ensures forall i :: 0 <= i < |s| ==> r[i] == LowerChar(s[i])
  {
    seq(|s|, i requires 0 <= i < |s| => LowerChar(s[i]))
  }

  /** Lower-casing leaves no upper-case ASCII letter and is idempotent. */
  lemma LowerIdempotent(s: string)
    ensures forall i :: 0 <= i < |Lower(s)| ==> !('A' <= Lower(s)[i] <= 'Z')
    ensures Lower(Lower(s)) == Lower(s)
  {
  }

  /** `needle` occurs in `hay` starting at index `i`. */
  predicate OccursAt(hay: string, needle: string, i: int)
  {
    0 <= i && i + |needle| <= |hay| && hay[i..i + |needle|] == needle
  }

  /** `hay.includes(needle)`: scans `hay` for a start position where `needle`
      matches. The empty needle occurs everywhere. */
  predicate Contains(hay: string, needle: string)
    ensures Contains(hay, needle) ==> |needle| <= |hay|
    decreases |hay|
  {
    (|needle| <= |hay| && hay[..|needle|] == needle) || (|hay| > 0 && Contains(hay[1..], needle))
  }

  /** `Contains` holds exactly when there is a position where `needle` occurs. */
  lemma {:induction false} ContainsIff(hay: string, needle: string)
    ensures Contains(hay, needle) <==> exists i :: OccursAt(hay, needle, i)
    decreases |hay|
  {
    if |needle| <= |hay| && hay[..|needle|] == needle {
      assert OccursAt(hay, needle, 0);
    } else if |hay| > 0 {
      ContainsIff(hay[1..], needle);
      forall i | OccursAt(hay, needle, i)
        ensures OccursAt(hay[1..], needle, i - 1)
      {
        assert i != 0 by {
          assert hay[0..|needle|] == hay[..|needle|];
        }
        assert hay[1..][i - 1..i - 1 + |needle|] == hay[i..i + |needle|];
      }
      forall j | OccursAt(hay[1..], needle, j)
        ensures OccursAt(hay, needle, j + 1)
      {
        assert hay[1..][j..j + |needle|] == hay[j + 1..j + 1 + |needle|];
      }
    }
  }

  /** The empty string occurs in every string. */
  lemma ContainsEmpty(hay: string)
    ensures Contains(hay, "")
  {
    assert hay[..0] == "";
  }

  /* ---------------------------------------------------------------------- */
  /* Decimal rendering                                                       */
  /* ---------------------------------------------------------------------- */

  predicate IsDigit(c: char)
  {
    '0' <= c <= '9'
  }

  predicate AllDigits(s: string)
  {
    forall i :: 0 <= i < |s| ==> IsDigit(s[i])
  }

  function DigitChar(d: nat): char
    requires d < 10
  {
    ('0' as int + d) as char
  }

  /** The number a string of decimal digits spells. */
  function DecimalValue(s: string): nat
    requires AllDigits(s)
  {
    if |s| == 0 then 0
    else 10 * DecimalValue(s[..|s| - 1]) + (s[|s| - 1] as int - '0' as int)
  }

  /** `String(n)` for a non-negative integer: non-empty decimal digits with no
      leading zero (except "0" itself), spelling `n`. */
  function NatToString(n: nat): (s: string)
    ensures |s| >= 1 && AllDigits(s)
    ensures DecimalValue(s) == n
    ensures s[0] == '0' ==> s == "0"
  {
    if n < 10 then [DigitChar(n)]
    else
      var s := NatToString(n / 10) + [DigitChar(n % 10)];
      assert s[..|s| - 1] == NatToString(n / 10);
      s
  }

  /** `String(n)` for an integer (JavaScript), `str(n)` (Python): a minus
      sign before the digits of a negative number. */
  function IntToString(n: int): (s: string)
    ensures |s| >= 1
    ensures n >= 0 ==> s == NatToString(n)
    ensures n < 0 ==> s == "-" + NatToString(-n)
  {
    if n < 0 then "-" + NatToString(-n) else NatToString(n)
  }

  /** Different decimal numerals for different numbers. */
  lemma {:induction false} NatToStringInjective(a: nat, b: nat)
    requires NatToString(a) == NatToString(b)
    ensures a == b
  {
  }

  /* ---------------------------------------------------------------------- */
  /* JavaScript parseInt                                                     */
  /* ---------------------------------------------------------------------- */

  predicate IsHexDigit(c: char)
  {
    IsDigit(c) || 'a' <= c <= 'f' || 'A' <= c <= 'F'
  }

  function HexDigitValue(c: char): nat
    requires IsHexDigit(c)
  {
    if IsDigit(c) then c as int - '0' as int
    else if 'a' <= c <= 'f' then c as int - 'a' as int + 10
    else c as int - 'A' as int + 10
  }

  /** The longest prefix of `s` whose characters satisfy `digit`. */
  function DigitPrefix(s: string, hex: bool): (p: string)
    ensures |p| <= |s| && p == s[..|p|]
    ensures forall i :: 0 <= i < |p| ==> (if hex then IsHexDigit(p[i]) else IsDigit(p[i]))
    ensures |p| < |s| ==> !(if hex then IsHexDigit(s[|p|]) else IsDigit(s[|p|]))
  {
    if |s| > 0 && (if hex then IsHexDigit(s[0]) else IsDigit(s[0])) then
      var p := [s[0]] + DigitPrefix(s[1..], hex);
      assert s == [s[0]] + s[1..];
      p
    else []
  }

  function HexValue(s: string): nat
    requires forall i :: 0 <= i < |s| ==> IsHexDigit(s[i])
  {
    if |s| == 0 then 0
    else 16 * HexValue(s[..|s| - 1]) + HexDigitValue(s[|s| - 1])
  }

  /** The digits of `body` after the sign: `0x`/`0X` switches to base 16;
      otherwise the longest decimal prefix. No digit at all is `None`. */
  function ParseUnsigned(body: string): (r: Option<int>)
    ensures r.Some? ==> r.value >= 0
    ensures AllDigits(body) && |body| >= 1 ==> r == Some(DecimalValue(body))
  {
    if |body| >= 2 && body[0] == '0' && (body[1] == 'x' || body[1] == 'X') then
      var h := DigitPrefix(body[2..], true);
      if h == [] then None else Some(HexValue(h))
    else
      var d := DigitPrefix(body, false);
      assert AllDigits(body) ==> |d| == |body| && d == body[..|body|] == body;
      if d == [] then None else Some(DecimalValue(d))
  }

  /** `parseInt(s)` with no radix: leading whitespace skipped, an optional
      sign, then hexadecimal after `0x` or the longest decimal prefix. `None`
      stands for `NaN`. */
  function ParseInt(s: string): (r: Option<int>)
    ensures AllDigits(s) && |s| >= 1 ==> r == Some(DecimalValue(s))
  {
    var t := TrimStart(s);
    assert AllDigits(s) && |s| >= 1 ==> !IsSpace(s[0]) && LeadingSpaces(s) == 0 && t == s;
    if |t| > 0 && t[0] == '-' then
      match ParseUnsigned(t[1..])
      case None => None
      case Some(v) => Some(-v)
    else if |t| > 0 && t[0] == '+' then ParseUnsigned(t[1..])
    else ParseUnsigned(t)
  }

  /** A string that starts with something other than whitespace, a sign or
      a digit parses to `NaN`; "NaN" itself is one. */
  lemma ParseIntNotANumber(s: string)
    requires |s| >= 1 && !IsSpace(s[0]) && s[0] != '-' && s[0] != '+' && !IsDigit(s[0])
    ensures ParseInt(s) == None
  {
    assert LeadingSpaces(s) == 0;
    assert TrimStart(s) == s;
    var d := DigitPrefix(s, false);
    assert d == [];
  }

  /** `parseInt(String(n)) === n` for every integer `n`. */
  lemma ParseIntToString(n: int)
    ensures ParseInt(IntToString(n)) == Some(n)
  {
    var s := IntToString(n);
    if n < 0 {
      var digits := NatToString(-n);
      assert s[1..] == digits;
      assert LeadingSpaces(s) == 0;
    }
  }
}

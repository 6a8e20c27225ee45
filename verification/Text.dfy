/** Characters, bytes and white space as the Go runtime sees them.

    A Go string that holds valid UTF-8 is a `string` here: a Dafny `char` is a
    Unicode scalar value, as a Go rune obtained from such a string is. */
module Text {

  datatype Option<+T> = None | Some(value: T)

  type byte = n: int | 0 <= n < 256

  // The SentencePiece word-boundary marker, U+2581.
  const MARKER: char := '\U{2581}'

  // The ranges of the White_Space property.
  const WHITE_SPACE: seq<(int, int)> := [
    (0x09, 0x0D), (0x20, 0x20), (0x85, 0x85), (0xA0, 0xA0), (0x1680, 0x1680), (0x2000, 0x200A),
    (0x2028, 0x2029), (0x202F, 0x202F), (0x205F, 0x205F), (0x3000, 0x3000)]

  predicate InTable(n: int, table: seq<(int, int)>) {
    table != [] && (table[0].0 <= n <= table[0].1 || InTable(n, table[1..]))
  }

  /** unicode.IsSpace. */
  predicate IsSpace(c: char) {
    InTable(c as int, WHITE_SPACE)
  }

  lemma {:induction false} InTableIff(n: int, table: seq<(int, int)>)
    ensures InTable(n, table) <==> exists k :: 0 <= k < |table| && table[k].0 <= n <= table[k].1
  {
    if table == [] {
    } else {
      InTableIff(n, table[1..]);
      assert forall k :: 0 <= k < |table[1..]| ==> table[1..][k] == table[k + 1];
    }
  }

  lemma MarkerIsNoSpace()
    ensures !IsSpace(MARKER)
  {
    InTableIff(MARKER as int, WHITE_SPACE);
  }

  /** The octets of one character, by the table of section 3 of RFC 3629. */
  function Utf8(c: char): (bytes: seq<byte>)
    ensures 1 <= |bytes| <= 4
  {
    var n := c as int;
    if n < 0x80 then [n]
    else if n < 0x800 then [0xC0 + n / 0x40, 0x80 + n % 0x40]
    else if n < 0x1_0000 then [0xE0 + n / 0x1000, 0x80 + n / 0x40 % 0x40, 0x80 + n % 0x40]
    else [0xF0 + n / 0x4_0000, 0x80 + n / 0x1000 % 0x40, 0x80 + n / 0x40 % 0x40, 0x80 + n % 0x40]
  }

  /** The octets of a character, read back: how many there are tells how large its code point is,
      the first tells how many there are, and the bits they carry make up the code point. */
  lemma Utf8Means(c: char)
    ensures var n, b: seq<int> := c as int, Utf8(c);
            if |b| == 1 then 0 <= b[0] < 0x80 && n == b[0]
            else if |b| == 2 then
              && 0x80 <= n < 0x800 && 0xC0 <= b[0] < 0xE0 && 0x80 <= b[1] < 0xC0
              && n == 0x40 * (b[0] - 0xC0) + (b[1] - 0x80)
            else if |b| == 3 then
              && 0x800 <= n < 0x1_0000 && 0xE0 <= b[0] < 0xF0 && 0x80 <= b[1] < 0xC0 && 0x80 <= b[2] < 0xC0
              && n == 0x1000 * (b[0] - 0xE0) + 0x40 * (b[1] - 0x80) + (b[2] - 0x80)
            else
              && |b| == 4 && 0x1_0000 <= n < 0x11_0000 && 0xF0 <= b[0] < 0xF5
              && 0x80 <= b[1] < 0xC0 && 0x80 <= b[2] < 0xC0 && 0x80 <= b[3] < 0xC0
              && n == 0x4_0000 * (b[0] - 0xF0) + 0x1000 * (b[1] - 0x80) + 0x40 * (b[2] - 0x80) + (b[3] - 0x80)
  {
    var b: seq<int> := Utf8(c);
    if |b| == 4 {
      FourOctets(c as int, b[0] - 0xF0, b[1] - 0x80, b[2] - 0x80, b[3] - 0x80);
    }
  }

  lemma FourOctets(n: int, a: int, b: int, c: int, d: int)
    requires 0x1_0000 <= n < 0x11_0000
    requires a == n / 0x4_0000 && b == n / 0x1000 % 0x40 && c == n / 0x40 % 0x40 && d == n % 0x40
    ensures 0 <= a < 5 && 0 <= b < 0x40 && 0 <= c < 0x40 && 0 <= d < 0x40
    ensures n == 0x4_0000 * a + 0x1000 * b + 0x40 * c + d
  {
    var x, y := n / 0x40, n / 0x1000;
    assert n == 0x40 * x + d && x == 0x40 * y + c && y == 0x40 * a + b;
  }

  /** Different characters have different octets. */
  lemma Utf8IsInjective(c: char, d: char)
    requires Utf8(c) == Utf8(d)
    ensures c == d
  {
    Utf8Means(c);
    Utf8Means(d);
  }

  /** len(s) for a Go string: octets, not characters. */
  function ByteLength(s: string): nat {
    if s == [] then 0 else ByteLength(s[..|s| - 1]) + |Utf8(s[|s| - 1])|
  }

  lemma {:induction false} ByteLengthConcat(a: string, b: string)
    ensures ByteLength(a + b) == ByteLength(a) + ByteLength(b)
  {
    if b == [] {
      assert a + b == a;
    } else {
      assert (a + b)[..|a + b| - 1] == a + b[..|b| - 1];
      ByteLengthConcat(a, b[..|b| - 1]);
    }
  }

  lemma {:induction false} ByteLengthBounds(s: string)
    ensures |s| <= ByteLength(s) <= 4 * |s|
  {
    if s == [] {
    } else {
      ByteLengthBounds(s[..|s| - 1]);
    }
  }

  function TrimLeft(s: string): (r: string)
    ensures r != [] ==> !IsSpace(r[0])
  {
    if s != [] && IsSpace(s[0]) then TrimLeft(s[1..]) else s
  }

  function TrimRight(s: string): (r: string)
    ensures r <= s
    ensures r != [] ==> !IsSpace(r[|r| - 1])
  {
    if s != [] && IsSpace(s[|s| - 1]) then TrimRight(s[..|s| - 1]) else s
  }

  /** strings.TrimSpace. */
  function Trim(s: string): (r: string)
    ensures r != [] ==> !IsSpace(r[0]) && !IsSpace(r[|r| - 1])
  {
    TrimRight(TrimLeft(s))
  }

  /** What is trimmed is white space at both ends, and what is left has none there. */
  lemma TrimMeans(s: string) returns (a: string, b: string)
    ensures s == a + Trim(s) + b && (forall c :: c in a ==> IsSpace(c)) && (forall c :: c in b ==> IsSpace(c))
  {
    a := TrimLeftMeans(s);
    b := TrimRightMeans(TrimLeft(s));
  }

  lemma {:induction false} TrimLeftMeans(s: string) returns (a: string)
    ensures s == a + TrimLeft(s) && forall c :: c in a ==> IsSpace(c)
  {
    if s != [] && IsSpace(s[0]) {
      a := TrimLeftMeans(s[1..]);
      a := [s[0]] + a;
    } else {
      a := "";
    }
  }

  lemma {:induction false} TrimRightMeans(s: string) returns (b: string)
    ensures s == TrimRight(s) + b && forall c :: c in b ==> IsSpace(c)
  {
    if s != [] && IsSpace(s[|s| - 1]) {
      b := TrimRightMeans(s[..|s| - 1]);
      b := b + [s[|s| - 1]];
    } else {
      b := "";
    }
  }

  lemma {:induction false} TrimLeftBefore(x: string, y: string)
    requires TrimLeft(x) != ""
    ensures TrimLeft(x + y) == TrimLeft(x) + y
  {
    if IsSpace(x[0]) {
      TrimLeftBefore(x[1..], y);
      assert (x + y)[1..] == x[1..] + y;
    }
  }

  lemma {:induction false} TrimRightAfter(x: string, blanks: string)
    requires forall c :: c in blanks ==> IsSpace(c)
    ensures TrimRight(x + blanks) == TrimRight(x)
  {
    if blanks == "" {
      assert x + blanks == x;
    } else {
      var front := blanks[..|blanks| - 1];
      assert (x + blanks)[..|x + blanks| - 1] == x + front && blanks[|blanks| - 1] in blanks;
      TrimRightAfter(x, front);
    }
  }

  lemma {:induction false} SomeLeft(x: string)
    requires x != "" && !IsSpace(x[|x| - 1])
    ensures TrimLeft(x) != ""
  {
    if IsSpace(x[0]) {
      SomeLeft(x[1..]);
    }
  }

  /** White space behind a text does not matter to trimming. */
  lemma TrimIgnoresBlanks(x: string, blanks: string)
    requires x != "" && !IsSpace(x[|x| - 1]) && forall c :: c in blanks ==> IsSpace(c)
    ensures Trim(x + blanks) == Trim(x)
  {
    SomeLeft(x);
    TrimLeftBefore(x, blanks);
    TrimRightAfter(TrimLeft(x), blanks);
  }

  /** strings.Join with a blank. */
  function Spaced(ws: seq<string>): string {
    if ws == [] then ""
    else if |ws| == 1 then ws[0]
    else Spaced(ws[..|ws| - 1]) + " " + ws[|ws| - 1]
  }

  /** strings.ToLower, by a function on characters. */
  function Lower(s: string, lower: char -> char): (r: string)
    ensures |r| == |s|
  {
    seq(|s|, i requires 0 <= i < |s| => lower(s[i]))
  }

  function Same(c: char): char {
    c
  }

  /** What joining with blanks means, word by word. */
  lemma SpacedMeans(ws: seq<string>, w: string)
    ensures Spaced([]) == "" && Spaced([w]) == w
    ensures ws != [] ==> Spaced(ws + [w]) == Spaced(ws) + " " + w
  {
    assert (ws + [w])[..|ws|] == ws;
  }

  /** White space, code point by code point. */
  lemma IsSpaceMeans(c: char)
    ensures var n := c as int;
            IsSpace(c) <==>
              || 0x09 <= n <= 0x0D || n == 0x20 || n == 0x85 || n == 0xA0 || n == 0x1680 || 0x2000 <= n <= 0x200A
              || n == 0x2028 || n == 0x2029 || n == 0x202F || n == 0x205F || n == 0x3000
  {
    InTableIff(c as int, WHITE_SPACE);
    var n, t := c as int, WHITE_SPACE;
    assert t[0] == (0x09, 0x0D) && t[1] == (0x20, 0x20) && t[2] == (0x85, 0x85) && t[3] == (0xA0, 0xA0);
    assert t[4] == (0x1680, 0x1680) && t[5] == (0x2000, 0x200A) && t[6] == (0x2028, 0x2029) && t[7] == (0x202F, 0x202F);
    assert t[8] == (0x205F, 0x205F) && t[9] == (0x3000, 0x3000) && |t| == 10;
  }

  /** How many octets one more character adds. */
  lemma ByteLengthOfOneMore(s: string, c: char)
    ensures ByteLength("") == 0
    ensures ByteLength(s + [c]) ==
              ByteLength(s) + if c as int < 0x80 then 1 else if c as int < 0x800 then 2
                              else if c as int < 0x1_0000 then 3 else 4
  {
    assert (s + [c])[..|s|] == s;
  }

  /** The characters of s that are not white space, in order. */
  function Ink(s: string): (r: string)
    ensures |r| <= |s|
  {
    if s == [] then []
    else Ink(s[..|s| - 1]) + if IsSpace(s[|s| - 1]) then [] else [s[|s| - 1]]
  }

  lemma {:induction false} InkConcat(a: string, b: string)
    ensures Ink(a + b) == Ink(a) + Ink(b)
  {
    if b == [] {
      assert a + b == a;
    } else {
      assert (a + b)[..|a + b| - 1] == a + b[..|b| - 1];
      InkConcat(a, b[..|b| - 1]);
    }
  }

  lemma InkOfOneMore(s: string, c: char)
    ensures Ink("") == "" && Ink(s + [c]) == if IsSpace(c) then Ink(s) else Ink(s) + [c]
  {
    assert (s + [c])[..|s|] == s;
  }

  lemma {:induction false} InkOfTrimLeft(s: string)
    ensures Ink(TrimLeft(s)) == Ink(s)
  {
    if s == [] || !IsSpace(s[0]) {
    } else {
      assert Ink([s[0]]) == Ink([]) + [];
      InkOfTrimLeft(s[1..]);
      InkConcat([s[0]], s[1..]);
      assert s == [s[0]] + s[1..];
    }
  }

  lemma {:induction false} InkOfTrimRight(s: string)
    ensures Ink(TrimRight(s)) == Ink(s)
  {
    if s == [] || !IsSpace(s[|s| - 1]) {
    } else {
      InkOfTrimRight(s[..|s| - 1]);
    }
  }

  lemma InkOfTrim(s: string)
    ensures Ink(Trim(s)) == Ink(s)
  {
    InkOfTrimLeft(s);
    InkOfTrimRight(TrimLeft(s));
  }
}

/**
 * The JavaScript string operations the core relies on: `trim`, `toUpperCase`,
 * `split(" ")` and the hexadecimal rendering of random bytes.
 */
module Text {

  /** JavaScript's WhiteSpace and LineTerminator code points: what `trim` strips. */
  predicate IsSpace(c: char) {
    c == ' ' || c == '\t' || c == '\n' || c == '\r' || c == '\U{000B}' || c == '\U{000C}'
    || c == '\U{00A0}' || c == '\U{1680}' || ('\U{2000}' <= c <= '\U{200A}')
    || c == '\U{2028}' || c == '\U{2029}' || c == '\U{202F}' || c == '\U{205F}'
    || c == '\U{3000}' || c == '\U{FEFF}'
  }

  ghost predicate AllSpace(s: string) {
    forall i :: 0 <= i < |s| ==> IsSpace(s[i])
  }

  /** Strips leading white space: the result is a suffix of `s` preceded only by white space. */
  function TrimStart(s: string): (r: string)
    ensures |r| <= |s| && r == s[|s| - |r|..]
    ensures AllSpace(s[..|s| - |r|])
    ensures r == [] || !IsSpace(r[0])
  {
    if |s| > 0 && IsSpace(s[0]) then
      var t := s[1..];
      var r := TrimStart(t);
      assert s[|s| - |r|..] == t[|t| - |r|..];
      var dropped, dropped' := s[..|s| - |r|], t[..|t| - |r|];
      assert forall i :: 1 <= i < |dropped| ==> dropped[i] == dropped'[i - 1];
      r
    else s
  }

  /** Strips trailing white space: the result is a prefix of `s` followed only by white space. */
  function TrimEnd(s: string): (r: string)
    ensures |r| <= |s| && r == s[..|r|]
    ensures AllSpace(s[|r|..])
    ensures r == [] || !IsSpace(r[|r| - 1])
  {
    if |s| > 0 && IsSpace(s[|s| - 1]) then
      var t := s[..|s| - 1];
      var r := TrimEnd(t);
      assert s[..|r|] == t[..|r|];
      var dropped, dropped' := s[|r|..], t[|r|..];
      assert forall i :: 0 <= i < |dropped'| ==> dropped[i] == dropped'[i];
      r
    else s
  }

  /** `String.prototype.trim`. */
  function Trim(s: string): (r: string)
    ensures r == [] || (!IsSpace(r[0]) && !IsSpace(r[|r| - 1]))
    ensures exists i, j :: 0 <= i <= j <= |s| && r == s[i..j] && AllSpace(s[..i]) && AllSpace(s[j..])
  {
    var t := TrimStart(s);
    var r := TrimEnd(t);
    SuffixSlices(s, |s| - |t|, |r|);
    r
  }

  /** Cutting a suffix of `s` again is cutting `s`. */
  lemma SuffixSlices(s: string, i: nat, k: nat)
    requires i + k <= |s|
    ensures s[i..][..k] == s[i..i + k] && s[i..][k..] == s[i + k..]
  {
  }

  lemma {:induction false} TrimStartSkipsSpace(a: string, t: string)
    requires AllSpace(a)
    ensures TrimStart(a + t) == TrimStart(t)
  {
    if a != [] {
      var a' := a[1..];
      assert (a + t)[0] == a[0] && (a + t)[1..] == a' + t;
      assert forall i :: 0 <= i < |a'| ==> a'[i] == a[i + 1];
      TrimStartSkipsSpace(a', t);
    } else {
      assert a + t == t;
    }
  }

  lemma {:induction false} TrimEndSkipsSpace(t: string, b: string)
    requires AllSpace(b)
    ensures TrimEnd(t + b) == TrimEnd(t)
  {
    if b != [] {
      var b' := b[..|b| - 1];
      assert (t + b)[|t + b| - 1] == b[|b| - 1] && (t + b)[..|t + b| - 1] == t + b';
      assert forall i :: 0 <= i < |b'| ==> b'[i] == b[i];
      TrimEndSkipsSpace(t, b');
    } else {
      assert t + b == t;
    }
  }

  lemma {:induction false} TrimStartAppend(s: string, b: string)
    ensures TrimStart(s) != [] ==> TrimStart(s + b) == TrimStart(s) + b
    ensures TrimStart(s) == [] ==> TrimStart(s + b) == TrimStart(b)
  {
    if |s| > 0 && IsSpace(s[0]) {
      assert (s + b)[1..] == s[1..] + b;
      TrimStartAppend(s[1..], b);
    } else if s == [] {
      assert s + b == b;
    }
  }

  /** Surrounding white space never changes the trimmed text. */
  lemma TrimIgnoresPadding(a: string, s: string, b: string)
    requires AllSpace(a) && AllSpace(b)
    ensures Trim(a + s + b) == Trim(s)
  {
    assert a + s + b == a + (s + b);
    TrimStartSkipsSpace(a, s + b);
    TrimStartAppend(s, b);
    if TrimStart(s) != [] {
      TrimEndSkipsSpace(TrimStart(s), b);
    } else {
      TrimStartSkipsSpace(b, []);
      assert b + [] == b;
    }
  }

  /** `toUpperCase` on one code point. ASCII letters, and the two non-ASCII letters whose
      upper case is an ASCII letter (dotless i and long s). */
  function UpperChar(c: char): char {
    if 'a' <= c <= 'z' then (c as int - 32) as char
    else if c == '\U{0131}' then 'I'
    else if c == '\U{017F}' then 'S'
    else c
  }

  /** `String.prototype.toUpperCase`, code point by code point. */
  function Upper(s: string): (r: string)
    ensures |r| == |s|
    ensures forall i :: 0 <= i < |s| ==> r[i] == UpperChar(s[i])
  {
    if s == [] then [] else [UpperChar(s[0])] + Upper(s[1..])
  }

  /** Upper-casing twice is upper-casing once. */
  lemma UpperIdempotent(s: string)
    ensures Upper(Upper(s)) == Upper(s)
  {
    assert forall i :: 0 <= i < |s| ==> UpperChar(UpperChar(s[i])) == UpperChar(s[i]);
  }

  /** `s.split(sep)` for a one-character separator. */
  function Split(s: string, sep: char): (r: seq<string>)
    ensures |r| >= 1
    ensures forall i :: 0 <= i < |r| ==> sep !in r[i]
  {
    if s == [] then [[]]
    else
      var rest := Split(s[1..], sep);
      if s[0] == sep then [[]] + rest else [[s[0]] + rest[0]] + rest[1..]
  }

  /** `fields.join(sep)`. */
  function Join(fields: seq<string>, sep: char): string
    requires |fields| >= 1
  {
    if |fields| == 1 then fields[0] else fields[0] + [sep] + Join(fields[1..], sep)
  }

  /** Splitting loses nothing: joining the fields back gives the original text. */
  lemma {:induction false} SplitJoin(s: string, sep: char)
    ensures Join(Split(s, sep), sep) == s
  {
    if s != [] {
      var rest := Split(s[1..], sep);
      SplitJoin(s[1..], sep);
      if s[0] == sep {
        assert Split(s, sep)[1..] == rest;
        assert s == [sep] + s[1..];
      } else if |rest| == 1 {
        assert Split(s, sep) == [[s[0]] + rest[0]];
        assert s == [s[0]] + s[1..];
      } else {
        var r := Split(s, sep);
        assert r[1..] == rest[1..];
        assert Join(rest, sep) == rest[0] + [sep] + Join(rest[1..], sep);
        assert s == [s[0]] + s[1..];
      }
    }
  }

  /** Text without the separator is a single field. */
  lemma {:induction false} SplitWithoutSeparator(s: string, sep: char)
    requires sep !in s
    ensures Split(s, sep) == [s]
  {
    if s != [] {
      SplitWithoutSeparator(s[1..], sep);
      assert s == [s[0]] + s[1..];
    }
  }

  /** Text before the first separator is the first field. */
  lemma {:induction false} SplitAtSeparator(a: string, b: string, sep: char)
    requires sep !in a
    ensures Split(a + [sep] + b, sep) == [a] + Split(b, sep)
  {
    var s := a + [sep] + b;
    if a == [] {
      assert s == [sep] + b && s[1..] == b;
    } else {
      assert s[0] == a[0] && s[1..] == a[1..] + [sep] + b;
      SplitAtSeparator(a[1..], b, sep);
      assert [a[0]] + a[1..] == a;
    }
  }

  type Byte = b: int | 0 <= b < 256

  const HexLowerDigits: string := "0123456789abcdef"
  const HexUpperDigits: string := "0123456789ABCDEF"

  /** `Buffer.toString("hex")`: two lower-case digits per byte, high nibble first. */
  function HexLower(bytes: seq<Byte>): (r: string)
    ensures |r| == 2 * |bytes|
  {
    if bytes == [] then []
    else [HexLowerDigits[bytes[0] / 16], HexLowerDigits[bytes[0] % 16]] + HexLower(bytes[1..])
  }

  /** Value of an upper-case hexadecimal digit. */
  function HexValue(c: char): int {
    if '0' <= c <= '9' then c as int - '0' as int
    else if 'A' <= c <= 'F' then c as int - 'A' as int + 10
    else -1
  }

  predicate IsUpperHex(c: char) {
    ('0' <= c <= '9') || ('A' <= c <= 'F')
  }

  /** Reads back two digits per byte. */
  function Unhex(s: string): seq<int> {
    if |s| < 2 then [] else [HexValue(s[0]) * 16 + HexValue(s[1])] + Unhex(s[2..])
  }

  /** Upper-casing a lower-case digit gives an upper-case digit of the same value. */
  lemma HexDigit(d: int)
    requires 0 <= d < 16
    ensures IsUpperHex(UpperChar(HexLowerDigits[d])) && HexValue(UpperChar(HexLowerDigits[d])) == d
  {
  }

  /** The first byte becomes two upper-case digits of its value, followed by the rest. */
  lemma UpperHexHead(bytes: seq<Byte>)
    requires bytes != []
    ensures var s := Upper(HexLower(bytes));
      && |s| >= 2 && IsUpperHex(s[0]) && IsUpperHex(s[1])
      && HexValue(s[0]) * 16 + HexValue(s[1]) == bytes[0]
      && s[2..] == Upper(HexLower(bytes[1..]))
  {
    var b := bytes[0];
    var h := HexLower(bytes);
    var s := Upper(h);
    var t := Upper(HexLower(bytes[1..]));
    assert h[0] == HexLowerDigits[b / 16] && h[1] == HexLowerDigits[b % 16];
    assert h[2..] == HexLower(bytes[1..]);
    HexDigit(b / 16);
    HexDigit(b % 16);
    assert s[2..] == t by {
      forall i | 0 <= i < |t| ensures s[2..][i] == t[i] {
        assert s[i + 2] == UpperChar(h[i + 2]) && h[i + 2] == h[2..][i];
      }
    }
  }

  /** `toString("hex").toUpperCase()`: upper-case hexadecimal digits, two per byte. */
  lemma {:induction false} UpperHexDigits(bytes: seq<Byte>)
    ensures |Upper(HexLower(bytes))| == 2 * |bytes|
    ensures forall i :: 0 <= i < |Upper(HexLower(bytes))| ==> IsUpperHex(Upper(HexLower(bytes))[i])
  {
    if bytes != [] {
      var s := Upper(HexLower(bytes));
      var t := Upper(HexLower(bytes[1..]));
      UpperHexHead(bytes);
      UpperHexDigits(bytes[1..]);
      forall i | 2 <= i < |s| ensures IsUpperHex(s[i]) {
        assert s[i] == s[2..][i - 2];
      }
    }
  }

  /** The upper-case digits decode back to the bytes. */
  lemma {:induction false} UpperHexRoundTrip(bytes: seq<Byte>)
    ensures Unhex(Upper(HexLower(bytes))) == bytes
  {
    if bytes != [] {
      var s := Upper(HexLower(bytes));
      UpperHexHead(bytes);
      UpperHexRoundTrip(bytes[1..]);
      var rest := s[2..];
      assert Unhex(rest) == bytes[1..];
      assert Unhex(s) == [bytes[0]] + Unhex(rest);
    }
  }
}

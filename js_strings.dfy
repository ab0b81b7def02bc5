/**
 * The handful of JavaScript string operations the loader and the proxy rely on,
 * written out over `seq<char>`: the whitespace class shared by `\s` and
 * `String.prototype.trim`, `trim`, `split` on one character, `toLowerCase`
 * (A to Z only), the decimal rendering of a number in a template literal, and
 * `encodeURIComponent`.
 */
module JsStrings {
  import opened Wrappers
  import opened Sequences

  /** A text value JavaScript treats as true: present and not empty. */
  predicate Truthy(f: Option<string>) {
    f.Some? && f.value != ""
  }

  /** `a || b` on two text values. */
  function Or(a: Option<string>, b: Option<string>): (r: Option<string>)
    ensures Truthy(r) <==> Truthy(a) || Truthy(b)
    ensures Truthy(a) ==> r == a
    ensures !Truthy(a) ==> r == b
  {
    if Truthy(a) then a else b
  }

  /** `f || ''`. */
  function TextOr(f: Option<string>): (r: string)
    ensures r != "" <==> Truthy(f)
    ensures Truthy(f) ==> r == f.value
  {
    if Truthy(f) then f.value else ""
  }

  // ---------------------------------------------------------------- whitespace

  /** ECMAScript WhiteSpace and LineTerminator code points: what the regular
      expression class `\s` matches and what `trim` removes. */
  predicate IsWhitespace(c: char) {
    || c == '\t' || c == '\n' || c == '\U{B}' || c == '\U{C}' || c == '\r' || c == ' '
    || c == '\U{A0}' || c == '\U{1680}' || ('\U{2000}' <= c <= '\U{200A}')
    || c == '\U{2028}' || c == '\U{2029}' || c == '\U{202F}' || c == '\U{205F}'
    || c == '\U{3000}' || c == '\U{FEFF}'
  }

  predicate AllWhitespace(s: string) {
    forall i :: 0 <= i < |s| ==> IsWhitespace(s[i])
  }

  /** Neither end of `s` is whitespace. */
  predicate IsTrimmed(s: string) {
    s == [] || (!IsWhitespace(s[0]) && !IsWhitespace(s[|s| - 1]))
  }

  /** `String.prototype.trim`: whitespace is removed from either end, one
      character at a time, until neither end is whitespace; only a string made
      of whitespace trims to the empty string. */
  function Trim(s: string): (r: string)
    ensures IsTrimmed(r)
    ensures r == [] <==> AllWhitespace(s)
    decreases |s|
  {
    if s == [] then s
    else if IsWhitespace(s[0]) then
      assert AllWhitespace(s) <==> AllWhitespace(s[1..]) by {
        assert forall i :: 1 <= i < |s| ==> s[i] == s[1..][i - 1];
      }
      Trim(s[1..])
    else if IsWhitespace(s[|s| - 1]) then
      Trim(s[..|s| - 1])
    else
      s
  }

  /** The number of whitespace characters at the start of `s`: all of them are
      whitespace, and the next character, if any, is not. */
  function LeadingWhitespace(s: string): (k: nat)
    ensures k <= |s|
    ensures AllWhitespace(s[..k])
    ensures k < |s| ==> !IsWhitespace(s[k])
  {
    if s != [] && IsWhitespace(s[0]) then
      var k := 1 + LeadingWhitespace(s[1..]);
      assert s[..k] == [s[0]] + s[1..][..k - 1];
      assert k < |s| ==> s[k] == s[1..][k - 1];
      k
    else
      0
  }

  /** `r` sits in `s` right after the first `i` characters, with only whitespace after it. */
  predicate InfixAt(s: string, i: nat, r: string) {
    i + |r| <= |s| && r == s[i..i + |r|] && AllWhitespace(s[i + |r|..])
  }

  /** What `trim` keeps is the piece of `s` after its leading whitespace, with
      only whitespace after it. */
  lemma {:induction false} TrimIsInfix(s: string)
    ensures InfixAt(s, LeadingWhitespace(s), Trim(s))
    decreases |s|
  {
    if s == [] {
    } else if IsWhitespace(s[0]) {
      TrimIsInfix(s[1..]);
      InfixShift(s, LeadingWhitespace(s[1..]), Trim(s[1..]));
    } else if IsWhitespace(s[|s| - 1]) {
      var t := s[..|s| - 1];
      TrimIsInfix(t);
      assert t[0] == s[0];
      assert s == t + [s[|s| - 1]];
      InfixExtend(t, s[|s| - 1], Trim(t));
    } else {
      assert s[..|s|] == s;
    }
  }

  /** A piece of `s[1..]` is a piece of `s`, one position further on. */
  lemma InfixShift(s: string, i: nat, r: string)
    requires s != [] && InfixAt(s[1..], i, r)
    ensures InfixAt(s, i + 1, r)
  {
    assert s[i + 1..i + 1 + |r|] == s[1..][i..i + |r|];
    assert s[i + 1 + |r|..] == s[1..][i + |r|..];
  }

  /** Whitespace appended after a piece stays after it. */
  lemma InfixExtend(t: string, c: char, r: string)
    requires InfixAt(t, 0, r) && IsWhitespace(c)
    ensures InfixAt(t + [c], 0, r)
  {
    assert (t + [c])[..|r|] == t[..|r|];
    assert (t + [c])[|r|..] == t[|r|..] + [c];
  }

  lemma TrimOfTrimmed(s: string)
    requires IsTrimmed(s)
    ensures Trim(s) == s
  {
  }

  /** Trimming a second time changes nothing. */
  lemma TrimIdempotent(s: string)
    ensures Trim(Trim(s)) == Trim(s)
  {
    TrimOfTrimmed(Trim(s));
  }

  // ---------------------------------------------------------------- split / join

  function Occurrences(s: string, c: char): nat {
    if s == [] then 0 else (if s[0] == c then 1 else 0) + Occurrences(s[1..], c)
  }

  /** `s.split(sep)` for a one-character separator: one piece more than there are
      separators, and no piece holds one. `"".split(",")` is `[""]`. */
  function Split(s: string, sep: char): (parts: seq<string>)
    ensures |parts| == Occurrences(s, sep) + 1
    ensures forall p :: p in parts ==> sep !in p
    decreases |s|
  {
    if s == [] then [""]
    else
      var rest := Split(s[1..], sep);
      if s[0] == sep then [""] + rest
      else [[s[0]] + rest[0]] + rest[1..]
  }

  /** `parts.join(sep)`. */
  function Join(parts: seq<string>, sep: char): string {
    if parts == [] then ""
    else if |parts| == 1 then parts[0]
    else parts[0] + [sep] + Join(parts[1..], sep)
  }

  /** Joining the pieces of a split gives back the string. */
  lemma {:induction false} SplitJoin(s: string, sep: char)
    ensures Join(Split(s, sep), sep) == s
    decreases |s|
  {
    if s != [] {
      var rest := Split(s[1..], sep);
      SplitJoin(s[1..], sep);
      if s[0] == sep {
        assert Split(s, sep) == [""] + rest;
        assert ([""] + rest)[1..] == rest;
      } else {
        var parts := [[s[0]] + rest[0]] + rest[1..];
        assert Split(s, sep) == parts;
        if |rest| == 1 {
          assert parts == [[s[0]] + rest[0]];
        } else {
          assert parts[1..] == rest[1..];
          assert Join(rest, sep) == rest[0] + [sep] + Join(rest[1..], sep);
        }
        assert s == [s[0]] + s[1..];
      }
    }
  }

  /** Splitting a string that starts with a separator-free piece `p`. */
  lemma {:induction false} SplitAfterPiece(p: string, t: string, sep: char)
    requires sep !in p
    ensures Split(p + t, sep) == [p + Split(t, sep)[0]] + Split(t, sep)[1..]
    decreases |p|
  {
    var parts := Split(t, sep);
    if p != [] {
      SplitAfterPiece(p[1..], t, sep);
      ConcatTail(p, t);
      assert p[0] in p;
      var rest := Split(p[1..] + t, sep);
      assert Split(p + t, sep) == [[p[0]] + rest[0]] + rest[1..];
      HeadTail(p);
      assert [p[0]] + (p[1..] + parts[0]) == p + parts[0];
    } else {
      EmptyConcat(p, t);
      EmptyConcat(p, parts[0]);
      HeadTail(parts);
    }
  }

  /** A string without the separator splits into itself alone. */
  lemma SplitOfPiece(p: string, sep: char)
    requires sep !in p
    ensures Split(p, sep) == [p]
  {
    SplitAfterPiece(p, "", sep);
    assert p + "" == p;
  }

  /** Joining a concatenation puts one separator between the two joins. */
  lemma {:induction false} JoinAppend(ps: seq<string>, qs: seq<string>, sep: char)
    requires |ps| >= 1 && |qs| >= 1
    ensures Join(ps + qs, sep) == Join(ps, sep) + [sep] + Join(qs, sep)
    decreases |ps|
  {
    assert (ps + qs)[0] == ps[0] && (ps + qs)[1..] == ps[1..] + qs;
    if |ps| > 1 {
      JoinAppend(ps[1..], qs, sep);
    }
  }

  /** Splitting at a separator splits each side on its own: the pieces of `a`,
      then the pieces of `b`. */
  lemma SplitAtSeparator(a: string, b: string, sep: char)
    ensures Split(a + [sep] + b, sep) == Split(a, sep) + Split(b, sep)
  {
    var ps, qs := Split(a, sep), Split(b, sep);
    SplitJoin(a, sep);
    SplitJoin(b, sep);
    JoinAppend(ps, qs, sep);
    assert forall p :: p in ps + qs ==> p in ps || p in qs;
    JoinSplit(ps + qs, sep);
  }

  /** Splitting a join of separator-free pieces gives back the pieces. */
  lemma {:induction false} JoinSplit(parts: seq<string>, sep: char)
    requires |parts| >= 1
    requires forall p :: p in parts ==> sep !in p
    ensures Split(Join(parts, sep), sep) == parts
    decreases |parts|
  {
    if |parts| == 1 {
      SplitAfterPiece(parts[0], "", sep);
      assert parts[0] + "" == parts[0];
    } else {
      var t := Join(parts[1..], sep);
      JoinSplit(parts[1..], sep);
      assert Join(parts, sep) == parts[0] + ([sep] + t);
      SplitAfterPiece(parts[0], [sep] + t, sep);
      assert ([sep] + t)[1..] == t;
      assert Split([sep] + t, sep) == [""] + parts[1..];
      assert parts[0] + "" == parts[0];
      assert parts == [parts[0]] + parts[1..];
    }
  }

  // ---------------------------------------------------------------- lower case

  function LowerChar(c: char): char {
    if 'A' <= c <= 'Z' then (c as int + 32) as char else c
  }

  predicate HasNoUpper(s: string) {
    forall i :: 0 <= i < |s| ==> !('A' <= s[i] <= 'Z')
  }

  /** `toLowerCase`, for the letters A to Z: each character is mapped on its own,
      and no upper-case letter is left. */
  function AsciiLower(s: string): (r: string)
    ensures |r| == |s|
    ensures forall i :: 0 <= i < |s| ==> r[i] == LowerChar(s[i])
    ensures HasNoUpper(r)
  {
    if s == [] then [] else [LowerChar(s[0])] + AsciiLower(s[1..])
  }

  /** Text without capitals is left as it is. */
  lemma LowerOfLowercase(s: string)
    requires HasNoUpper(s)
    ensures AsciiLower(s) == s
  {
    assert forall i :: 0 <= i < |s| ==> AsciiLower(s)[i] == s[i];
  }

  /** Lower-casing a second time changes nothing. */
  lemma LowerIdempotent(s: string)
    ensures AsciiLower(AsciiLower(s)) == AsciiLower(s)
  {
    var r := AsciiLower(s);
    assert AsciiLower(r) == r by {
      forall i | 0 <= i < |r| ensures AsciiLower(r)[i] == r[i] { }
    }
  }

  // ---------------------------------------------------------------- decimals

  predicate IsDigit(c: char) { '0' <= c <= '9' }

  predicate AllDigits(s: string) {
    forall i :: 0 <= i < |s| ==> IsDigit(s[i])
  }

  function DigitChar(d: nat): (c: char)
    requires d < 10
    ensures IsDigit(c) && c as int - '0' as int == d
  {
    ('0' as int + d) as char
  }

  /** A non-negative integer as a template literal renders it: decimal digits,
      with no leading zero. */
  function DecimalString(n: nat): (s: string)
    ensures |s| >= 1 && AllDigits(s)
    ensures s[0] == '0' <==> n == 0
  {
    if n < 10 then [DigitChar(n)] else DecimalString(n / 10) + [DigitChar(n % 10)]
  }

  /** Reads a string of decimal digits. */
  function ParseDecimal(s: string): nat
    requires AllDigits(s)
  {
    if s == [] then 0
    else ParseDecimal(s[..|s| - 1]) * 10 + (s[|s| - 1] as int - '0' as int)
  }

  /** The decimal rendering can be read back: it determines the number. */
  lemma {:induction false} DecimalRoundTrip(n: nat)
    ensures ParseDecimal(DecimalString(n)) == n
  {
    if n >= 10 {
      var s := DecimalString(n);
      assert s[..|s| - 1] == DecimalString(n / 10);
      DecimalRoundTrip(n / 10);
    }
  }

  // ---------------------------------------------------------------- encodeURIComponent

  /** The characters `encodeURIComponent` leaves as they are. */
  predicate IsUriUnreserved(c: char) {
    || ('A' <= c <= 'Z') || ('a' <= c <= 'z') || ('0' <= c <= '9')
    || c == '-' || c == '_' || c == '.' || c == '!' || c == '~' || c == '*' || c == '\'' || c == '(' || c == ')'
  }

  /** The UTF-8 bytes of one Unicode scalar value. */
  function Utf8Bytes(c: char): (bytes: seq<nat>)
    ensures 1 <= |bytes| <= 4
    ensures forall i :: 0 <= i < |bytes| ==> bytes[i] < 256
    ensures c as int < 0x80 <==> bytes == [c as int]
  {
    var n := c as int;
    if n < 0x80 then [n]
    else if n < 0x800 then [0xC0 + n / 0x40, 0x80 + n % 0x40]
    else if n < 0x10000 then [0xE0 + n / 0x1000, 0x80 + (n / 0x40) % 0x40, 0x80 + n % 0x40]
    else [0xF0 + n / 0x40000, 0x80 + (n / 0x1000) % 0x40, 0x80 + (n / 0x40) % 0x40, 0x80 + n % 0x40]
  }

  /** The upper-case hexadecimal digit for `d`. */
  function HexDigit(d: nat): (c: char)
    requires d < 16
    ensures IsUriUnreserved(c)
    ensures '0' <= c <= '9' || 'A' <= c <= 'F'
  {
    if d < 10 then ('0' as int + d) as char else ('A' as int + d - 10) as char
  }

  function HexValue(c: char): nat {
    if '0' <= c <= '9' then c as int - '0' as int
    else if 'A' <= c <= 'F' then c as int - 'A' as int + 10
    else 0
  }

  /** `%XX` with upper-case hexadecimal digits for each byte. */
  function PercentEncode(bytes: seq<nat>): (r: string)
    requires forall i :: 0 <= i < |bytes| ==> bytes[i] < 256
    ensures |r| == 3 * |bytes|
    ensures forall i :: 0 <= i < |r| ==> IsUriUnreserved(r[i]) || r[i] == '%'
  {
    if bytes == [] then ""
    else ['%', HexDigit(bytes[0] / 16), HexDigit(bytes[0] % 16)] + PercentEncode(bytes[1..])
  }

  function EncodeChar(c: char): string {
    if IsUriUnreserved(c) then [c] else PercentEncode(Utf8Bytes(c))
  }

  /** `encodeURIComponent`: the result holds only unreserved characters and `%`,
      and a string of unreserved characters is left as it is. */
  function EncodeUriComponent(s: string): (r: string)
    ensures forall i :: 0 <= i < |r| ==> IsUriUnreserved(r[i]) || r[i] == '%'
    ensures (forall i :: 0 <= i < |s| ==> IsUriUnreserved(s[i])) ==> r == s
  {
    if s == [] then "" else EncodeChar(s[0]) + EncodeUriComponent(s[1..])
  }

  lemma {:induction false} EncodeConcat(a: string, b: string)
    ensures EncodeUriComponent(a + b) == EncodeUriComponent(a) + EncodeUriComponent(b)
    decreases |a|
  {
    if a != [] {
      ConcatTail(a, b);
      EncodeConcat(a[1..], b);
      assert EncodeUriComponent(a + b) == EncodeChar(a[0]) + EncodeUriComponent(a[1..] + b);
      assert EncodeUriComponent(a) == EncodeChar(a[0]) + EncodeUriComponent(a[1..]);
    } else {
      EmptyConcat(a, b);
    }
  }

  /** Decoding of `%XX` escapes, one byte to one character (enough for ASCII). */
  function PercentDecode(s: string): string
    decreases |s|
  {
    if s == [] then ""
    else if s[0] == '%' && |s| >= 3 then [(16 * (HexValue(s[1]) % 16) + HexValue(s[2]) % 16) as char] + PercentDecode(s[3..])
    else [s[0]] + PercentDecode(s[1..])
  }

  lemma HexValueOfDigit(d: nat)
    requires d < 16
    ensures HexValue(HexDigit(d)) == d
  {
  }

  lemma DecodeEscape(a: char, b: char, rest: string)
    ensures PercentDecode(['%', a, b] + rest)
         == [(16 * (HexValue(a) % 16) + HexValue(b) % 16) as char] + PercentDecode(rest)
  {
    assert (['%', a, b] + rest)[3..] == rest;
  }

  lemma DecodeEncodedChar(c: char, rest: string)
    requires c as int < 0x80
    ensures PercentDecode(EncodeChar(c) + rest) == [c] + PercentDecode(rest)
  {
    if IsUriUnreserved(c) {
      assert c != '%';
      ConcatTail([c], rest);
    } else {
      var n := c as int;
      assert Utf8Bytes(c) == [n];
      EscapeOfByte(n);
      DecodeEscapedByte(n, rest);
    }
  }

  /** A byte's escape is `%` and its two hexadecimal digits. */
  lemma EscapeOfByte(n: nat)
    requires n < 256
    ensures PercentEncode([n]) == ['%', HexDigit(n / 16), HexDigit(n % 16)]
  {
    assert [n][1..] == [];
  }

  /** An escape decodes to the character with the byte's code. */
  lemma DecodeEscapedByte(n: nat, rest: string)
    requires n < 0x80
    ensures PercentDecode(['%', HexDigit(n / 16), HexDigit(n % 16)] + rest) == [n as char] + PercentDecode(rest)
  {
    var hi, lo := n / 16, n % 16;
    HexValueOfDigit(hi);
    HexValueOfDigit(lo);
    DecodeEscape(HexDigit(hi), HexDigit(lo), rest);
    assert 16 * (hi % 16) + lo % 16 == n;
  }

  /** For ASCII text, decoding the encoding gives back the text. */
  lemma {:induction false} EncodeDecodeAscii(s: string)
    requires forall i :: 0 <= i < |s| ==> s[i] as int < 0x80
    ensures PercentDecode(EncodeUriComponent(s)) == s
    decreases |s|
  {
    if s != [] {
      EncodeDecodeAscii(s[1..]);
      DecodeEncodedChar(s[0], EncodeUriComponent(s[1..]));
      assert s == [s[0]] + s[1..];
    }
  }
}

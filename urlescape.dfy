/**
 * Percent-encoding as Go's net/url does it for the host and the path of a
 * URL: `shouldEscape`, `escape` over the UTF-8 bytes of a string,
 * `unescape` (whose result is a byte string), `validEncoded`, and the
 * escaped path `EscapedPath` returns after `setPath`.
 */
module UrlEscape {
  import opened Wrappers

  /** The two modes of `shouldEscape` the agent's URLs go through. */
  datatype Encoding = EncodeHost | EncodePath

  predicate IsAlnum(c: char) { 'a' <= c <= 'z' || 'A' <= c <= 'Z' || '0' <= c <= '9' }

  /**
   * `shouldEscape` of one byte, given as the character of that code: ASCII
   * letters and digits and the marks '-', '_', '.', '~' are kept; a host
   * also keeps the sub-delimiters, ':', brackets, '<', '>' and '"'; a path
   * keeps every reserved character but '?'; everything else is escaped.
   */
  predicate ShouldEscape(c: char, mode: Encoding)
  {
    if IsAlnum(c) then false
    else if mode == EncodeHost && c in {'!', '$', '&', '\'', '(', ')', '*', '+', ',', ';', '=', ':', '[', ']', '<', '>', '"'} then false
    else if c in {'-', '_', '.', '~'} then false
    else if c in {'$', '&', '+', ',', '/', ':', ';', '=', '?', '@'} then mode == EncodeHost || c == '?'
    else true
  }

  predicate IsHex(c: char) { '0' <= c <= '9' || 'a' <= c <= 'f' || 'A' <= c <= 'F' }

  function HexValue(c: char): (v: nat)
    requires IsHex(c)
    ensures v < 16
  {
    if '0' <= c <= '9' then c as int - '0' as int
    else if 'a' <= c <= 'f' then c as int - 'a' as int + 10
    else c as int - 'A' as int + 10
  }

  /** The upper-case hexadecimal digit `escape` writes. */
  function UpperHex(d: nat): (c: char)
    requires d < 16
    ensures IsHex(c) && IsAlnum(c) && HexValue(c) == d
  {
    if d < 10 then ('0' as int + d) as char else ('A' as int + d - 10) as char
  }

  predicate IsBytes(bs: seq<nat>) { forall i :: 0 <= i < |bs| ==> bs[i] < 256 }

  /** A byte written as '%' and two hexadecimal digits that read back as the byte. */
  function Percent(b: nat): (r: string)
    requires b < 256
    ensures |r| == 3 && r[0] == '%' && IsHex(r[1]) && IsHex(r[2])
    ensures 16 * HexValue(r[1]) + HexValue(r[2]) == b
  {
    ['%', UpperHex(b / 16), UpperHex(b % 16)]
  }

  /** The UTF-8 encoding of a character: one byte below 0x80, otherwise two to four bytes of at least 0x80. */
  function Utf8(c: char): (bs: seq<nat>)
    ensures 1 <= |bs| <= 4 && IsBytes(bs)
    ensures c as int < 0x80 ==> bs == [c as int]
    ensures c as int >= 0x80 ==> forall i :: 0 <= i < |bs| ==> bs[i] >= 0x80
  {
    var n := c as int;
    if n < 0x80 then [n]
    else if n < 0x800 then [0xC0 + n / 0x40, 0x80 + n % 0x40]
    else if n < 0x1_0000 then [0xE0 + n / 0x1000, 0x80 + n / 0x40 % 0x40, 0x80 + n % 0x40]
    else [0xF0 + n / 0x4_0000, 0x80 + n / 0x1000 % 0x40, 0x80 + n / 0x40 % 0x40, 0x80 + n % 0x40]
  }

  /** The bytes of a Go string holding `s`. */
  function Utf8String(s: string): (bs: seq<nat>)
    ensures IsBytes(bs)
    decreases |s|
  {
    if s == [] then [] else Utf8(s[0]) + Utf8String(s[1..])
  }

  /** One byte through `escape`: kept when `shouldEscape` lets it through, "%XX" otherwise. */
  function EscapeByte(b: nat, mode: Encoding): string
    requires b < 256
  {
    if b < 0x80 && !ShouldEscape(b as char, mode) then [b as char] else Percent(b)
  }

  /** `escape` of a byte string. */
  function EscapeBytes(bs: seq<nat>, mode: Encoding): string
    requires IsBytes(bs)
    decreases |bs|
  {
    if bs == [] then "" else EscapeByte(bs[0], mode) + EscapeBytes(bs[1..], mode)
  }

  /** `escape(s, mode)`. */
  function Escape(s: string, mode: Encoding): string
  {
    EscapeBytes(Utf8String(s), mode)
  }

  /** `unescape` succeeds on a path: every '%' starts an escape of two hexadecimal digits. */
  predicate ValidEscapes(s: string)
  {
    forall i :: 0 <= i < |s| && s[i] == '%' ==> i + 2 < |s| && IsHex(s[i + 1]) && IsHex(s[i + 2])
  }

  /** `unescape(s, encodePath)`: the byte string an escaped path stands for. */
  function Unescape(s: string): (bs: seq<nat>)
    requires ValidEscapes(s)
    ensures IsBytes(bs)
    decreases |s|
  {
    if s == [] then []
    else if s[0] == '%' then [16 * HexValue(s[1]) + HexValue(s[2])] + Unescape(s[3..])
    else Utf8(s[0]) + Unescape(s[1..])
  }

  /** A character `validEncoded` allows in a path. */
  predicate EncodedChar(c: char)
  {
    c in {'!', '$', '&', '\'', '(', ')', '*', '+', ',', ';', '=', ':', '@', '[', ']', '%'} || !ShouldEscape(c, EncodePath)
  }

  /** `validEncoded(s, encodePath)`. */
  predicate ValidEncoded(s: string) { forall i :: 0 <= i < |s| ==> EncodedChar(s[i]) }

  /** `escape(unescape(s, encodePath), encodePath)`. */
  function Reescaped(s: string): string
    requires ValidEscapes(s)
  {
    EscapeBytes(Unescape(s), EncodePath)
  }

  /** A path kept as written when it is a valid encoding, and escaped anew otherwise. */
  function Reencoded(s: string): string
    requires ValidEscapes(s)
  {
    if ValidEncoded(s) then s else Reescaped(s)
  }

  /**
   * What `EscapedPath` returns after `setPath(p)`: nothing when `unescape`
   * fails, "*" for "%2A" (the one path that decodes to "*" and that
   * `escape` writes back unchanged), and otherwise `p` re-encoded.
   */
  function EscapedPathOf(p: string): Option<string>
  {
    if !ValidEscapes(p) then None
    else if p == "%2A" then Some("*")
    else Some(Reencoded(p))
  }

  /** Characters that both `escape` and `unescape` leave as they are. */
  predicate IsPlain(s: string, mode: Encoding)
  {
    forall i :: 0 <= i < |s| ==> s[i] as int < 0x80 && !ShouldEscape(s[i], mode)
  }

  // ---------------------------------------------------------------------
  // Properties

  /** Two strings with valid escapes, one after the other, have valid escapes. */
  lemma ValidEscapesConcat(a: string, b: string)
    requires ValidEscapes(a) && ValidEscapes(b)
    ensures ValidEscapes(a + b)
  {
    var s := a + b;
    forall i | 0 <= i < |s| && s[i] == '%' ensures i + 2 < |s| && IsHex(s[i + 1]) && IsHex(s[i + 2]) {
      if i < |a| {
        assert a[i] == '%';
        assert s[i + 1] == a[i + 1] && s[i + 2] == a[i + 2];
      } else {
        assert b[i - |a|] == '%';
        assert s[i + 1] == b[i - |a| + 1] && s[i + 2] == b[i - |a| + 2];
      }
    }
  }

  /** Decoding distributes over concatenation. */
  lemma {:induction false} UnescapeConcat(a: string, b: string)
    requires ValidEscapes(a) && ValidEscapes(b)
    ensures ValidEscapes(a + b)
    ensures Unescape(a + b) == Unescape(a) + Unescape(b)
    decreases |a|
  {
    ValidEscapesConcat(a, b);
    if a == [] {
      assert a + b == b;
    } else if a[0] == '%' {
      assert (a + b)[3..] == a[3..] + b;
      UnescapeConcat(a[3..], b);
    } else {
      assert (a + b)[1..] == a[1..] + b;
      UnescapeConcat(a[1..], b);
    }
  }

  /** The escapes of a concatenation are those of its second part, shifted. */
  lemma ValidEscapesOfSuffix(a: string, b: string)
    requires ValidEscapes(a + b)
    ensures ValidEscapes(b)
  {
    var s := a + b;
    forall i | 0 <= i < |b| && b[i] == '%' ensures i + 2 < |b| && IsHex(b[i + 1]) && IsHex(b[i + 2]) {
      assert s[|a| + i] == '%';
      assert s[|a| + i + 1] == b[i + 1] && s[|a| + i + 2] == b[i + 2];
    }
  }

  lemma {:induction false} EscapeBytesConcat(x: seq<nat>, y: seq<nat>, mode: Encoding)
    requires IsBytes(x) && IsBytes(y)
    ensures IsBytes(x + y)
    ensures EscapeBytes(x + y, mode) == EscapeBytes(x, mode) + EscapeBytes(y, mode)
    decreases |x|
  {
    if x == [] {
      assert x + y == y;
    } else {
      assert (x + y)[1..] == x[1..] + y;
      EscapeBytesConcat(x[1..], y, mode);
    }
  }

  /** An escaped byte is a valid escape sequence and decodes to the byte. */
  lemma EscapeByteDecodes(b: nat, mode: Encoding)
    requires b < 256
    ensures ValidEscapes(EscapeByte(b, mode))
    ensures Unescape(EscapeByte(b, mode)) == [b]
  {
    var r := EscapeByte(b, mode);
    if b < 0x80 && !ShouldEscape(b as char, mode) {
      assert r[1..] == [];
    } else {
      assert r[3..] == [];
    }
  }

  /** Decoding what `escape` writes gives back the bytes. */
  lemma {:induction false} EscapeBytesDecodes(bs: seq<nat>, mode: Encoding)
    requires IsBytes(bs)
    ensures ValidEscapes(EscapeBytes(bs, mode))
    ensures Unescape(EscapeBytes(bs, mode)) == bs
    decreases |bs|
  {
    if bs != [] {
      EscapeByteDecodes(bs[0], mode);
      EscapeBytesDecodes(bs[1..], mode);
      UnescapeConcat(EscapeByte(bs[0], mode), EscapeBytes(bs[1..], mode));
    }
  }

  /** `escape` with the path mode writes a valid encoding. */
  lemma {:induction false} EscapeBytesEncoded(bs: seq<nat>)
    requires IsBytes(bs)
    ensures ValidEncoded(EscapeBytes(bs, EncodePath))
    decreases |bs|
  {
    if bs != [] {
      EscapeBytesEncoded(bs[1..]);
    }
  }

  /** The escaped host or path decodes to the bytes of the string. */
  lemma EscapeDecodes(s: string, mode: Encoding)
    ensures ValidEscapes(Escape(s, mode))
    ensures Unescape(Escape(s, mode)) == Utf8String(s)
  {
    EscapeBytesDecodes(Utf8String(s), mode);
  }

  /**
   * `setPath` followed by `EscapedPath` succeeds exactly for valid escapes,
   * and then gives a valid encoding of the same byte string.
   */
  lemma EscapedPathOfDecodes(p: string)
    ensures EscapedPathOf(p).Some? <==> ValidEscapes(p)
    ensures EscapedPathOf(p).Some? ==>
      var e := EscapedPathOf(p).value;
      ValidEscapes(e) && ValidEncoded(e) && Unescape(e) == Unescape(p)
  {
    if ValidEscapes(p) && p != "%2A" && !ValidEncoded(p) {
      EscapeBytesDecodes(Unescape(p), EncodePath);
      EscapeBytesEncoded(Unescape(p));
    } else if p == "%2A" {
      assert "*"[1..] == [] && p[3..] == [];
    }
  }

  /** A plain string is its own escape, its own decoding and a valid encoding in the path mode. */
  lemma PlainUnchanged(s: string, mode: Encoding)
    requires IsPlain(s, mode)
    ensures ValidEscapes(s)
    ensures Unescape(s) == Utf8String(s)
    ensures EscapeBytes(Unescape(s), mode) == s
    ensures Escape(s, mode) == s
  {
    PlainDecodes(s, mode);
    PlainEscapes(s, mode);
  }

  lemma {:induction false} PlainDecodes(s: string, mode: Encoding)
    requires IsPlain(s, mode)
    ensures ValidEscapes(s)
    ensures Unescape(s) == Utf8String(s)
    decreases |s|
  {
    if s != [] {
      PlainDecodes(s[1..], mode);
      assert s[0] != '%';
    }
  }

  lemma {:induction false} PlainEscapes(s: string, mode: Encoding)
    requires IsPlain(s, mode)
    ensures EscapeBytes(Utf8String(s), mode) == s
    decreases |s|
  {
    if s != [] {
      PlainEscapes(s[1..], mode);
      var bs := Utf8String(s);
      assert bs == [s[0] as int] + Utf8String(s[1..]);
      assert bs[1..] == Utf8String(s[1..]);
      assert EscapeByte(bs[0], mode) == [s[0]];
    }
  }

  /** A plain path is a valid encoding. */
  lemma PlainEncoded(s: string)
    requires IsPlain(s, EncodePath)
    ensures ValidEncoded(s)
  {
  }

  /** Behind a plain path, escaping anew leaves the plain part and re-encodes the rest. */
  lemma ReescapedBehindPlain(a: string, s: string)
    requires IsPlain(a, EncodePath) && ValidEscapes(s)
    ensures ValidEscapes(a + s)
    ensures Reescaped(a + s) == a + Reescaped(s)
  {
    PlainUnchanged(a, EncodePath);
    UnescapeConcat(a, s);
    EscapeBytesConcat(Unescape(a), Unescape(s), EncodePath);
  }

  /** Behind a plain path, the re-encoded path is the plain part and the re-encoded rest. */
  lemma ReencodedBehindPlain(a: string, s: string)
    requires IsPlain(a, EncodePath) && ValidEscapes(s)
    ensures ValidEscapes(a + s)
    ensures Reencoded(a + s) == a + Reencoded(s)
  {
    ReescapedBehindPlain(a, s);
    PlainEncoded(a);
    if ValidEncoded(s) {
      assert ValidEncoded(a + s);
    } else {
      var i :| 0 <= i < |s| && !EncodedChar(s[i]);
      assert !EncodedChar((a + s)[|a| + i]);
    }
  }

  /** Escaping anew a path followed by a plain one ends in the plain one. */
  lemma ReescapedThenPlain(s: string, t: string)
    requires ValidEscapes(s) && IsPlain(t, EncodePath)
    ensures ValidEscapes(s + t)
    ensures Reescaped(s + t) == Reescaped(s) + t
  {
    PlainUnchanged(t, EncodePath);
    UnescapeConcat(s, t);
    EscapeBytesConcat(Unescape(s), Unescape(t), EncodePath);
  }

  /** Escaping anew distributes over concatenation. */
  lemma ReescapedConcat(a: string, b: string)
    requires ValidEscapes(a) && ValidEscapes(b)
    ensures ValidEscapes(a + b)
    ensures Reescaped(a + b) == Reescaped(a) + Reescaped(b)
  {
    UnescapeConcat(a, b);
    EscapeBytesConcat(Unescape(a), Unescape(b), EncodePath);
  }

  /** A path with a plain part after a first part with valid escapes is not "%2A". */
  lemma NotStarEscape(y: string, t: string, r: string)
    requires ValidEscapes(y) && IsPlain(t, EncodePath) && t != ""
    ensures y + t + r != "%2A"
  {
    var x := y + t + r;
    assert |x| != 3 || x[0] != '%' by {
      if y == [] {
        assert x[0] == t[0];
      } else if y[0] == '%' {
        assert |y| >= 3;
      } else {
        assert x[0] == y[0];
      }
    }
  }

  /**
   * A path with valid escapes, a plain part and a rest with valid escapes:
   * `setPath` keeps it as written, or escapes the first part and the rest
   * anew around the plain part.
   */
  lemma ReencodedOfJoined(y: string, t: string, r: string)
    requires ValidEscapes(y) && IsPlain(t, EncodePath) && t != "" && ValidEscapes(r)
    ensures ValidEscapes(y + t + r)
    ensures EscapedPathOf(y + t + r) == Some(Reencoded(y + t + r))
    ensures Reencoded(y + t + r) == y + t + r || Reencoded(y + t + r) == Reescaped(y) + t + Reescaped(r)
  {
    var x := y + t + r;
    assert x == y + (t + r);
    ReescapedBehindPlain(t, r);
    ReescapedConcat(y, t + r);
    assert Reescaped(x) == Reescaped(y) + t + Reescaped(r);
    NotStarEscape(y, t, r);
    assert EscapedPathOf(x) == Some(Reencoded(x));
  }

  /** An ASCII host Go's host check accepts is printed as it is. */
  lemma EscapeOfPlainHost(h: string)
    requires IsPlain(h, EncodeHost)
    ensures Escape(h, EncodeHost) == h
  {
    PlainUnchanged(h, EncodeHost);
  }

  /** A non-ASCII character of a host is printed as the escaped bytes of its UTF-8 encoding. */
  lemma EscapeHostExample()
    ensures Escape("ä", EncodeHost) == "%C3%A4"
  {
    assert Utf8('ä') == [0xC3, 0xA4];
    assert Utf8String("ä") == [0xC3, 0xA4];
    assert EscapeBytes([0xA4], EncodeHost) == "%A4";
  }

  lemma UnescapeSpace()
    ensures ValidEscapes("a b") && Unescape("a b") == [97, 32, 98]
  {
    assert Unescape("b") == [98];
    assert Unescape(" b") == [32, 98];
  }

  lemma EscapeSpace()
    ensures EscapeBytes([97, 32, 98], EncodePath) == "a%20b"
  {
    assert EscapeBytes([98], EncodePath) == "b";
    assert EscapeBytes([32, 98], EncodePath) == "%20b";
  }

  /** A path element with a space is escaped. */
  lemma ReencodedSpace()
    ensures ValidEscapes("a b") && Reencoded("a b") == "a%20b"
  {
    UnescapeSpace();
    EscapeSpace();
    assert !EncodedChar("a b"[1]);
  }

  lemma UnescapeQuestionMark()
    ensures ValidEscapes("a?b") && Unescape("a?b") == [97, 63, 98]
  {
    assert Unescape("b") == [98];
    assert Unescape("?b") == [63, 98];
  }

  lemma EscapeQuestionMark()
    ensures EscapeBytes([97, 63, 98], EncodePath) == "a%3Fb"
  {
    assert EscapeBytes([98], EncodePath) == "b";
    assert EscapeBytes([63, 98], EncodePath) == "%3Fb";
  }

  /** A path element with a '?' is escaped. */
  lemma ReencodedQuestionMark()
    ensures ValidEscapes("a?b") && Reencoded("a?b") == "a%3Fb"
  {
    UnescapeQuestionMark();
    EscapeQuestionMark();
    assert !EncodedChar("a?b"[1]);
  }

  /**
   * A path element with only characters a valid encoding allows is kept,
   * even where `escape` would write them escaped, and one with a '%' that
   * starts no escape makes `setPath` fail.
   */
  lemma ReencodedKeptOrFailed()
    ensures ValidEscapes("a!b") && Reencoded("a!b") == "a!b"
    ensures EscapedPathOf("%zz") == None
  {
    assert "%zz"[0] == '%' && !IsHex("%zz"[1]);
  }
}

/**
 * `encodeURIComponent`, which the login and sign-up actions apply to an
 * authentication error message before putting it in the `/error?message=`
 * query string, together with a reference percent-decoder that states
 * what the encoding preserves.
 */
module Uri {
  import opened Wrappers

  /** The characters `encodeURIComponent` leaves as they are. */
  predicate IsUnreserved(c: char) {
    ('A' <= c <= 'Z') || ('a' <= c <= 'z') || ('0' <= c <= '9')
    || c == '-' || c == '_' || c == '.' || c == '!' || c == '~' || c == '*'
    || c == '\'' || c == '(' || c == ')'
  }

  predicate IsByte(b: int) {
    0 <= b < 0x100
  }

  /** The UTF-8 encoding of one Unicode scalar value. */
  function Utf8(c: char): (bytes: seq<int>)
    ensures 1 <= |bytes| <= 4
    ensures forall k :: 0 <= k < |bytes| ==> IsByte(bytes[k])
    ensures |bytes| == SequenceLength(bytes[0])
    ensures forall k :: 1 <= k < |bytes| ==> 0x80 <= bytes[k] < 0xC0
  {
    var n := c as int;
    if n < 0x80 then [n]
    else if n < 0x800 then [0xC0 + n / 0x40, 0x80 + n % 0x40]
    else if n < 0x1_0000 then [0xE0 + n / 0x1000, 0x80 + (n / 0x40) % 0x40, 0x80 + n % 0x40]
    else [0xF0 + n / 0x4_0000, 0x80 + (n / 0x1000) % 0x40, 0x80 + (n / 0x40) % 0x40, 0x80 + n % 0x40]
  }

  /** How many bytes a UTF-8 sequence with this lead byte has; 0 for a byte that cannot lead one. */
  function SequenceLength(lead: int): nat {
    if 0 <= lead < 0x80 then 1
    else if 0xC0 <= lead < 0xE0 then 2
    else if 0xE0 <= lead < 0xF0 then 3
    else if 0xF0 <= lead < 0xF8 then 4
    else 0
  }

  /** The scalar value a UTF-8 sequence stands for: the lead byte's payload bits, then six bits per continuation byte. */
  function CodePoint(bytes: seq<int>): int
    requires 1 <= |bytes| <= 4
  {
    if |bytes| == 1 then bytes[0]
    else if |bytes| == 2 then (bytes[0] - 0xC0) * 0x40 + (bytes[1] - 0x80)
    else if |bytes| == 3 then (bytes[0] - 0xE0) * 0x1000 + (bytes[1] - 0x80) * 0x40 + (bytes[2] - 0x80)
    else (bytes[0] - 0xF0) * 0x4_0000 + (bytes[1] - 0x80) * 0x1000 + (bytes[2] - 0x80) * 0x40 + (bytes[3] - 0x80)
  }

  lemma CodePointOfUtf8(c: char)
    ensures CodePoint(Utf8(c)) == c as int
  {
    var n := c as int;
    if 0x800 <= n < 0x1_0000 {
      assert n / 0x40 == (n / 0x1000) * 0x40 + (n / 0x40) % 0x40;
    } else if 0x1_0000 <= n {
      assert n / 0x1000 == (n / 0x4_0000) * 0x40 + (n / 0x1000) % 0x40;
      assert n / 0x40 == (n / 0x1000) * 0x40 + (n / 0x40) % 0x40;
    }
  }

  function HexDigit(d: int): (c: char)
    requires 0 <= d < 16
    ensures HexValue(c) == Some(d)
  {
    if d < 10 then ('0' as int + d) as char else ('A' as int + d - 10) as char
  }

  function HexValue(c: char): Option<int> {
    if '0' <= c <= '9' then Some(c as int - '0' as int)
    else if 'A' <= c <= 'F' then Some(c as int - 'A' as int + 10)
    else if 'a' <= c <= 'f' then Some(c as int - 'a' as int + 10)
    else None
  }

  /** `%XX` for each byte, with upper-case hexadecimal digits. */
  function Percent(bytes: seq<int>): (r: string)
    requires forall k :: 0 <= k < |bytes| ==> IsByte(bytes[k])
    ensures |r| == 3 * |bytes|
  {
    if bytes == [] then []
    else
      assert IsByte(bytes[0]);
      ['%', HexDigit(bytes[0] / 16), HexDigit(bytes[0] % 16)] + Percent(bytes[1..])
  }

  /** A character `encodeURIComponent` can produce: an unreserved one, `%`, or a hexadecimal digit. */
  predicate IsUriSafe(c: char) {
    IsUnreserved(c) || c == '%' || HexValue(c).Some?
  }

  function EncodeChar(c: char): string {
    if IsUnreserved(c) then [c] else Percent(Utf8(c))
  }

  /**
   * `encodeURIComponent(s)`: every character is kept or percent-encoded, so
   * the result is never shorter, holds only URI-safe characters (no `&`, `#`,
   * `=`, `?` or space that could cut the query parameter short), and leaves
   * strings of unreserved characters untouched.
   */
  function EncodeURIComponent(s: string): (r: string)
    ensures |r| >= |s|
    ensures forall i :: 0 <= i < |r| ==> IsUriSafe(r[i])
    ensures (forall i :: 0 <= i < |s| ==> IsUnreserved(s[i])) ==> r == s
  {
    if s == [] then []
    else
      var head := EncodeChar(s[0]);
      var tail := EncodeURIComponent(s[1..]);
      assert |head| >= 1 by {
        if !IsUnreserved(s[0]) { assert |Percent(Utf8(s[0]))| == 3 * |Utf8(s[0])|; }
      }
      assert forall i :: 0 <= i < |head| ==> IsUriSafe(head[i]) by {
        if !IsUnreserved(s[0]) { PercentIsSafe(Utf8(s[0])); }
      }
      head + tail
  }

  lemma {:induction false} PercentIsSafe(bytes: seq<int>)
    requires forall k :: 0 <= k < |bytes| ==> IsByte(bytes[k])
    ensures forall i :: 0 <= i < |Percent(bytes)| ==> IsUriSafe(Percent(bytes)[i])
  {
    if bytes != [] {
      PercentIsSafe(bytes[1..]);
    }
  }

  /** Reads one `%XX` group at the front of `s`. */
  function DecodeByte(s: string): Option<int> {
    if |s| >= 3 && s[0] == '%' && HexValue(s[1]).Some? && HexValue(s[2]).Some? then
      Some(HexValue(s[1]).value * 16 + HexValue(s[2]).value)
    else
      None
  }

  /** Reads `k` `%XX` groups at the front of `s`. */
  function DecodeBytes(s: string, k: nat): Option<seq<int>> {
    if k == 0 then Some([])
    else if |s| < 3 then None
    else match (DecodeByte(s), DecodeBytes(s[3..], k - 1))
      case (Some(b), Some(rest)) => Some([b] + rest)
      case _ => None
  }

  predicate IsScalarValue(n: int) {
    (0 <= n < 0xD800) || (0xE000 <= n < 0x11_0000)
  }

  /**
   * A reference percent-decoder: `%XX` groups are read as UTF-8 and every
   * other character is kept; a malformed group or sequence is an error.
   * The encoder above never emits `+` or a malformed group, so on its
   * output this agrees with the lenient query-string decoding a page uses.
   */
  function DecodeURIComponent(s: string): Option<string>
    decreases |s|
  {
    if s == [] then Some([])
    else if s[0] != '%' then
      match DecodeURIComponent(s[1..])
      case Some(t) => Some([s[0]] + t)
      case None => None
    else
      match DecodeByte(s)
      case None => None
      case Some(lead) =>
        var k := SequenceLength(lead);
        if k == 0 || |s| < 3 * k then None
        else match DecodeBytes(s, k)
          case None => None
          case Some(bytes) =>
            if |bytes| != k || exists j :: 1 <= j < k && !(0x80 <= bytes[j] < 0xC0) then None
            else
              var cp := CodePoint(bytes);
              if !IsScalarValue(cp) then None
              else match DecodeURIComponent(s[3 * k..])
                case Some(t) => Some([cp as char] + t)
                case None => None
  }

  lemma {:induction false} DecodePercent(bytes: seq<int>, rest: string)
    requires forall k :: 0 <= k < |bytes| ==> IsByte(bytes[k])
    ensures DecodeBytes(Percent(bytes) + rest, |bytes|) == Some(bytes)
    ensures bytes != [] ==> DecodeByte(Percent(bytes) + rest) == Some(bytes[0])
  {
    if bytes != [] {
      var s := Percent(bytes) + rest;
      var b := bytes[0];
      assert IsByte(b);
      assert s[0] == '%' && s[1] == HexDigit(b / 16) && s[2] == HexDigit(b % 16);
      assert DecodeByte(s) == Some(b);
      assert s[3..] == Percent(bytes[1..]) + rest;
      DecodePercent(bytes[1..], rest);
      assert [b] + bytes[1..] == bytes;
    }
  }

  lemma DecodeEncodedChar(c: char, rest: string)
    ensures DecodeURIComponent(EncodeChar(c) + rest) ==
      match DecodeURIComponent(rest)
      case Some(t) => Some([c] + t)
      case None => None
  {
    var s := EncodeChar(c) + rest;
    if IsUnreserved(c) {
      assert s[1..] == rest;
    } else {
      var bytes := Utf8(c);
      DecodePercent(bytes, rest);
      CodePointOfUtf8(c);
      assert s[3 * |bytes|..] == rest;
    }
  }

  /** Decoding undoes `encodeURIComponent`: the error page reads back exactly the message that was encoded. */
  lemma {:induction false} DecodeEncode(s: string)
    ensures DecodeURIComponent(EncodeURIComponent(s)) == Some(s)
  {
    if s != [] {
      DecodeEncode(s[1..]);
      DecodeEncodedChar(s[0], EncodeURIComponent(s[1..]));
      assert [s[0]] + s[1..] == s;
    }
  }

  /** Two different messages never encode to the same text. */
  lemma EncodeInjective(s: string, t: string)
    requires EncodeURIComponent(s) == EncodeURIComponent(t)
    ensures s == t
  {
    DecodeEncode(s);
    DecodeEncode(t);
  }
}

/** The two percent-encodings the application uses: `encodeURIComponent` (for the `?q=` search
    parameter) and the application/x-www-form-urlencoded serializer behind
    `URLSearchParams.prototype.toString` (for TMDB query strings). Both encode a character that
    is not left as it is as the UTF-8 bytes of that character, each written `%XX` in upper case. */
module UrlEncoding {

  /** UTF-8 encoding of one Unicode scalar value. */
  function Utf8(c: char): (bytes: seq<nat>)
    ensures 1 <= |bytes| <= 4
    ensures forall i :: 0 <= i < |bytes| ==> bytes[i] < 256
    ensures |bytes| == 1 <==> (c as int) < 0x80
  {
    var n := c as int;
    if n < 0x80 then [n]
    else if n < 0x800 then [0xC0 + n / 0x40, 0x80 + n % 0x40]
    else if n < 0x1_0000 then [0xE0 + n / 0x1000, 0x80 + (n / 0x40) % 0x40, 0x80 + n % 0x40]
    else [0xF0 + n / 0x4_0000, 0x80 + (n / 0x1000) % 0x40, 0x80 + (n / 0x40) % 0x40, 0x80 + n % 0x40]
  }

  const HexDigits: string := "0123456789ABCDEF"

  predicate IsAsciiAlphanumeric(c: char)
  {
    ('0' <= c <= '9') || ('A' <= c <= 'Z') || ('a' <= c <= 'z')
  }

  /** `%XX` for each byte. */
  function PercentBytes(bytes: seq<nat>): (r: string)
    requires forall i :: 0 <= i < |bytes| ==> bytes[i] < 256
    ensures |r| == 3 * |bytes|
    ensures forall i :: 0 <= i < |r| ==> r[i] == '%' || IsAsciiAlphanumeric(r[i])
  {
    if |bytes| == 0 then ""
    else ['%', HexDigits[bytes[0] / 16], HexDigits[bytes[0] % 16]] + PercentBytes(bytes[1..])
  }

  /** Characters `encodeURIComponent` leaves as they are. */
  predicate IsUriUnreserved(c: char)
  {
    IsAsciiAlphanumeric(c) || c in "-_.!~*'()"
  }

  /** Characters the form-urlencoded serializer leaves as they are. */
  predicate IsFormUnreserved(c: char)
  {
    IsAsciiAlphanumeric(c) || c in "*-._"
  }

  /** `encodeURIComponent(s)`: every character of the result is unreserved or `%`. */
  function EncodeUriComponent(s: string): (r: string)
    ensures forall i :: 0 <= i < |r| ==> IsUriUnreserved(r[i]) || r[i] == '%'
  {
    if |s| == 0 then ""
    else (if IsUriUnreserved(s[0]) then [s[0]] else PercentBytes(Utf8(s[0]))) + EncodeUriComponent(s[1..])
  }

  /** The form-urlencoded serialization of one name or value: space becomes `+`; every
      character of the result is unreserved, `%` or `+`. */
  function FormUrlEncode(s: string): (r: string)
    ensures forall i :: 0 <= i < |r| ==> IsFormUnreserved(r[i]) || r[i] == '%' || r[i] == '+'
  {
    if |s| == 0 then ""
    else
      (if s[0] == ' ' then "+" else if IsFormUnreserved(s[0]) then [s[0]] else PercentBytes(Utf8(s[0])))
      + FormUrlEncode(s[1..])
  }

  /** The characters that delimit URL parts and query pairs. */
  predicate IsUrlDelimiter(c: char)
  {
    c == '&' || c == '=' || c == '#' || c == '?' || c == ' ' || c == '/'
  }

  lemma CharsAbsent(r: string, c: char)
    requires IsUrlDelimiter(c)
    requires forall i :: 0 <= i < |r| ==> !IsUrlDelimiter(r[i])
    ensures c !in r
  {
  }

  /** Neither encoding ever produces a character that delimits URL parts or query pairs. */
  lemma EncodingsAvoidDelimiters(s: string, c: char)
    requires IsUrlDelimiter(c)
    ensures c !in EncodeUriComponent(s) && c !in FormUrlEncode(s)
  {
    CharsAbsent(EncodeUriComponent(s), c);
    CharsAbsent(FormUrlEncode(s), c);
  }
}

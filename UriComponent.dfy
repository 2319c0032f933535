/** `encodeURIComponent` over Unicode scalar values: every character outside
    the unreserved set becomes the `%XX` escapes of its UTF-8 bytes. */
module UriComponent {

  /** The characters `encodeURIComponent` leaves as they are. */
  predicate Unreserved(c: char)
  {
    ('A' <= c <= 'Z') || ('a' <= c <= 'z') || ('0' <= c <= '9')
    || c in {'-', '_', '.', '!', '~', '*', '\'', '(', ')'}
  }

  /** The characters an encoded component is made of. */
  predicate EncodedChar(c: char)
  {
    Unreserved(c) || c == '%'
  }

  /** Every character of `s` is one an encoded component is made of. */
  predicate IsEncoded(s: string)
  {
    forall i :: 0 <= i < |s| ==> EncodedChar(s[i])
  }

  /** Every character of `s` is unreserved. */
  predicate AllUnreserved(s: string)
  {
    forall i :: 0 <= i < |s| ==> Unreserved(s[i])
  }

  /** An upper-case hexadecimal digit. */
  function HexDigit(d: nat): (h: char)
    requires d < 16
    ensures Unreserved(h)
  {
    "0123456789ABCDEF"[d]
  }

  /** The UTF-8 encoding of one character. */
  function Utf8(c: char): (bytes: seq<nat>)
    ensures 1 <= |bytes| <= 4
    ensures forall i :: 0 <= i < |bytes| ==> bytes[i] < 256
  {
    var n := c as int;
    if n < 0x80 then [n]
    else if n < 0x800 then [0xC0 + n / 0x40, 0x80 + n % 0x40]
    else if n < 0x1_0000 then [0xE0 + n / 0x1000, 0x80 + (n / 0x40) % 0x40, 0x80 + n % 0x40]
    else [0xF0 + n / 0x4_0000, 0x80 + (n / 0x1000) % 0x40, 0x80 + (n / 0x40) % 0x40, 0x80 + n % 0x40]
  }

  /** `%XX` for each byte. */
  function {:induction false} Escape(bytes: seq<nat>): (r: string)
    requires forall i :: 0 <= i < |bytes| ==> bytes[i] < 256
    ensures |r| == 3 * |bytes|
    ensures forall i :: 0 <= i < |r| ==> EncodedChar(r[i])
  {
    if bytes == [] then []
    else ['%', HexDigit(bytes[0] / 16), HexDigit(bytes[0] % 16)] + Escape(bytes[1..])
  }

  function EncodeChar(c: char): (r: string)
    ensures forall i :: 0 <= i < |r| ==> EncodedChar(r[i])
    ensures Unreserved(c) ==> r == [c]
  {
    if Unreserved(c) then [c] else Escape(Utf8(c))
  }

  /** `encodeURIComponent(s)`: the result holds only unreserved characters
      and `%`, so it cannot hold a `&`, `=` or `#` that would end the
      parameter it is put in, and a string of unreserved characters is left
      unchanged. */
  function {:induction false} Encode(s: string): (r: string)
    ensures IsEncoded(r)
    ensures AllUnreserved(s) ==> r == s
  {
    if s == [] then []
    else
      var head := EncodeChar(s[0]);
      var tail := Encode(s[1..]);
      assert forall i :: 0 <= i < |s[1..]| ==> s[1..][i] == s[i + 1];
      head + tail
  }

  /** An encoded component holds none of the query string's delimiters. */
  lemma EncodedHasNoDelimiter(s: string)
    ensures '&' !in Encode(s) && '=' !in Encode(s) && '#' !in Encode(s)
  {
    var r := Encode(s);
    EncodedAvoids(r, '&');
    EncodedAvoids(r, '=');
    EncodedAvoids(r, '#');
  }

  lemma EncodedAvoids(r: string, c: char)
    requires IsEncoded(r) && !EncodedChar(c)
    ensures c !in r
  {
  }
}

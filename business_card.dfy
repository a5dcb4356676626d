/** The helpers of the business card on the search page: the phone-number
    formatter, the maps link built from the percent-encoded address (the
    `encodeURIComponent` of ECMAScript, section 19.2.6.5, over UTF-8), the
    image fallback and the detail and telephone links. */
module BusinessCard {
  import opened Wrappers
  import opened JsStrings

  /** ---------- phone numbers ---------- */

  /** `s.replace(/\D/g, '')`: the decimal digits of `s`, in order. */
  function Digits(s: string): (r: string)
    ensures AllDigits(r) && |r| <= |s|
  {
    if s == [] then [] else (if IsDigit(s[0]) then [s[0]] else []) + Digits(s[1..])
  }

  lemma {:induction false} DigitsConcat(a: string, b: string)
    ensures Digits(a + b) == Digits(a) + Digits(b)
  {
    if a == [] {
      assert a + b == b;
    } else {
      assert (a + b)[0] == a[0] && (a + b)[1..] == a[1..] + b;
      DigitsConcat(a[1..], b);
    }
  }

  lemma {:induction false} DigitsOfDigits(s: string)
    requires AllDigits(s)
    ensures Digits(s) == s
  {
    if s != [] {
      DigitsOfDigits(s[1..]);
    }
  }

  lemma {:induction false} DigitsOfNonDigits(s: string)
    requires forall i :: 0 <= i < |s| ==> !IsDigit(s[i])
    ensures Digits(s) == []
  {
    if s != [] {
      DigitsOfNonDigits(s[1..]);
    }
  }

  /** A template literal writes a missing number as "undefined". */
  function PhoneText(phone: Option<string>): string {
    phone.GetOr("undefined")
  }

  /** The text the formatter cleans: the number behind a literal `'' + ` prefix. */
  const CleanPrefix := "'' + "

  /** `(ddd) ddd-dddd` for ten digits. */
  function GroupTen(d: string): (r: string)
    requires |d| == 10
    ensures |r| == 14
  {
    "(" + d[..3] + ") " + d[3..6] + "-" + d[6..]
  }

  /** The formatter's match on the cleaned digits: ten digits, or eleven with a leading 1. */
  function FormatCleaned(cleaned: string): (r: Option<string>)
    ensures r.Some? <==> |cleaned| == 10 || (|cleaned| == 11 && cleaned[0] == '1')
  {
    if |cleaned| == 10 then Some(GroupTen(cleaned))
    else if |cleaned| == 11 && cleaned[0] == '1' then Some("+1 " + GroupTen(cleaned[1..]))
    else None
  }

  /** The `'' + ` prefix adds no digit, so only the number's own digits are matched. */
  function FormatTenDigitPhoneNumber(phone: Option<string>): (r: Option<string>)
    ensures r == FormatCleaned(Digits(PhoneText(phone)))
  {
    CleanPrefixAddsNothing(PhoneText(phone));
    FormatCleaned(Digits(CleanPrefix + PhoneText(phone)))
  }

  lemma CleanPrefixAddsNothing(text: string)
    ensures Digits(CleanPrefix + text) == Digits(text)
  {
    DigitsConcat(CleanPrefix, text);
    DigitsOfNonDigits(CleanPrefix);
  }

  lemma GroupTenDigits(d: string)
    requires |d| == 10 && AllDigits(d)
    ensures Digits(GroupTen(d)) == d
  {
    DigitsOfNonDigits("(");
    DigitsOfNonDigits(") ");
    DigitsOfNonDigits("-");
    DigitsOfDigits(d[..3]);
    DigitsOfDigits(d[3..6]);
    DigitsOfDigits(d[6..]);
    DigitsConcat("(", d[..3]);
    DigitsConcat("(" + d[..3], ") ");
    DigitsConcat("(" + d[..3] + ") ", d[3..6]);
    DigitsConcat("(" + d[..3] + ") " + d[3..6], "-");
    DigitsConcat("(" + d[..3] + ") " + d[3..6] + "-", d[6..]);
    assert d[..3] + d[3..6] + d[6..] == d;
  }

  lemma GroupElevenDigits(d: string)
    requires |d| == 11 && AllDigits(d) && d[0] == '1'
    ensures Digits("+1 " + GroupTen(d[1..])) == d
  {
    GroupTenDigits(d[1..]);
    DigitsConcat("+1 ", GroupTen(d[1..]));
    assert Digits("+1 ") == "1" by {
      assert "+1 "[1..] == "1 " && "1 "[1..] == " ";
      DigitsOfNonDigits(" ");
    }
    assert d == [d[0]] + d[1..];
  }

  /** A formatted number holds exactly the digits of the input, in order; the
      leading 1 of an eleven-digit number is the 1 of "+1". */
  lemma FormattedKeepsDigits(phone: Option<string>)
    ensures var r := FormatTenDigitPhoneNumber(phone);
      r.Some? ==> Digits(r.value) == Digits(PhoneText(phone))
  {
    var cleaned := Digits(PhoneText(phone));
    if |cleaned| == 10 {
      GroupTenDigits(cleaned);
    } else if |cleaned| == 11 && cleaned[0] == '1' {
      GroupElevenDigits(cleaned);
    }
  }

  /** Without a number the template text is "undefined", which holds no digit, so nothing is shown. */
  lemma NoNumber()
    ensures FormatTenDigitPhoneNumber(None) == None
  {
    DigitsOfNonDigits("undefined");
  }

  /** ---------- percent-encoding ---------- */

  /** The characters `encodeURIComponent` leaves as they are. */
  predicate Unreserved(c: char) {
    ('A' <= c <= 'Z') || ('a' <= c <= 'z') || ('0' <= c <= '9') ||
    c == '-' || c == '_' || c == '.' || c == '!' || c == '~' || c == '*' || c == '\'' || c == '(' || c == ')'
  }

  /** The UTF-8 encoding of one Unicode scalar value. */
  function Utf8(c: char): (r: seq<int>)
    ensures 1 <= |r| <= 4
    ensures |r| == 1 <==> (c as int) < 0x80
    ensures forall i :: 0 <= i < |r| ==> 0 <= r[i] < 256
  {
    var cp := c as int;
    if cp < 0x80 then [cp]
    else if cp < 0x800 then [0xC0 + cp / 64, 0x80 + cp % 64]
    else if cp < 0x10000 then [0xE0 + cp / 4096, 0x80 + (cp / 64) % 64, 0x80 + cp % 64]
    else [0xF0 + cp / 262144, 0x80 + (cp / 4096) % 64, 0x80 + (cp / 64) % 64, 0x80 + cp % 64]
  }

  const HexDigits := "0123456789ABCDEF"

  function HexDigit(n: int): char
    requires 0 <= n < 16
  {
    HexDigits[n]
  }

  predicate IsHexDigit(c: char) {
    ('0' <= c <= '9') || ('A' <= c <= 'F') || ('a' <= c <= 'f')
  }

  function HexValue(c: char): (v: int)
    requires IsHexDigit(c)
    ensures 0 <= v < 16
  {
    if '0' <= c <= '9' then c as int - '0' as int
    else if 'A' <= c <= 'F' then c as int - 'A' as int + 10
    else c as int - 'a' as int + 10
  }

  lemma HexDigitValue(n: int)
    requires 0 <= n < 16
    ensures IsHexDigit(HexDigit(n)) && HexValue(HexDigit(n)) == n
  {
  }

  /** `%XX` with upper-case hexadecimal digits. */
  function PercentByte(b: int): (r: string)
    requires 0 <= b < 256
    ensures |r| == 3 && r[0] == '%' && IsHexDigit(r[1]) && IsHexDigit(r[2])
    ensures HexValue(r[1]) * 16 + HexValue(r[2]) == b
  {
    HexDigitValue(b / 16);
    HexDigitValue(b % 16);
    ['%', HexDigit(b / 16), HexDigit(b % 16)]
  }

  function PercentBytes(bytes: seq<int>): (r: string)
    requires forall i :: 0 <= i < |bytes| ==> 0 <= bytes[i] < 256
    ensures |r| == 3 * |bytes|
    ensures bytes != [] ==> r[0] == '%'
  {
    if bytes == [] then [] else PercentByte(bytes[0]) + PercentBytes(bytes[1..])
  }

  /** Every character that is not unreserved becomes the `%XX` of each of its UTF-8 bytes. */
  function EncodeChar(c: char): (r: string)
    ensures Unreserved(c) ==> r == [c]
    ensures !Unreserved(c) ==> 3 <= |r| <= 12 && r[0] == '%'
  {
    if Unreserved(c) then [c] else PercentBytes(Utf8(c))
  }

  predicate InEncodedAlphabet(c: char) {
    Unreserved(c) || c == '%'
  }

  function EncodeURIComponent(s: string): (r: string)
    ensures |r| >= |s|
  {
    if s == [] then [] else EncodeChar(s[0]) + EncodeURIComponent(s[1..])
  }

  lemma {:induction false} PercentBytesAlphabet(bytes: seq<int>)
    requires forall i :: 0 <= i < |bytes| ==> 0 <= bytes[i] < 256
    ensures forall i :: 0 <= i < |PercentBytes(bytes)| ==> InEncodedAlphabet(PercentBytes(bytes)[i])
  {
    if bytes != [] {
      PercentBytesAlphabet(bytes[1..]);
      var head := PercentByte(bytes[0]);
      var tail := PercentBytes(bytes[1..]);
      forall i | 0 <= i < |head + tail| ensures InEncodedAlphabet((head + tail)[i]) {
        if i >= |head| {
          assert (head + tail)[i] == tail[i - |head|];
        }
      }
    }
  }

  /** The encoding of any text is made only of unreserved characters and `%`, so it
      can follow `destination=` in a link without ending the parameter. */
  lemma {:induction false} EncodedAlphabet(s: string)
    ensures forall i :: 0 <= i < |EncodeURIComponent(s)| ==> InEncodedAlphabet(EncodeURIComponent(s)[i])
  {
    if s != [] {
      EncodedAlphabet(s[1..]);
      var head := EncodeChar(s[0]);
      var tail := EncodeURIComponent(s[1..]);
      if !Unreserved(s[0]) {
        PercentBytesAlphabet(Utf8(s[0]));
      }
      forall i | 0 <= i < |head + tail| ensures InEncodedAlphabet((head + tail)[i]) {
        if i >= |head| {
          assert (head + tail)[i] == tail[i - |head|];
        }
      }
    }
  }

  lemma {:induction false} EncodeConcat(a: string, b: string)
    ensures EncodeURIComponent(a + b) == EncodeURIComponent(a) + EncodeURIComponent(b)
  {
    if a == [] {
      assert a + b == b;
    } else {
      assert (a + b)[0] == a[0] && (a + b)[1..] == a[1..] + b;
      EncodeConcat(a[1..], b);
    }
  }

  lemma {:induction false} EncodeUnreserved(s: string)
    requires forall i :: 0 <= i < |s| ==> Unreserved(s[i])
    ensures EncodeURIComponent(s) == s
  {
    if s != [] {
      EncodeUnreserved(s[1..]);
    }
  }

  predicate IsAscii(s: string) {
    forall i :: 0 <= i < |s| ==> (s[i] as int) < 0x80
  }

  /** Percent-decoding restricted to ASCII: the inverse the encoding is proved against. */
  function DecodeAscii(s: string): Option<string> {
    if s == [] then Some([])
    else if s[0] == '%' then
      if |s| >= 3 && IsHexDigit(s[1]) && IsHexDigit(s[2]) && HexValue(s[1]) * 16 + HexValue(s[2]) < 0x80 then
        match DecodeAscii(s[3..])
        case Some(rest) => Some([(HexValue(s[1]) * 16 + HexValue(s[2])) as char] + rest)
        case None => None
      else None
    else
      match DecodeAscii(s[1..])
      case Some(rest) => Some([s[0]] + rest)
      case None => None
  }

  lemma DecodeEncodedChar(c: char, tail: string)
    requires (c as int) < 0x80
    ensures DecodeAscii(EncodeChar(c) + tail) ==
      match DecodeAscii(tail)
      case Some(rest) => Some([c] + rest)
      case None => None
  {
    var e := EncodeChar(c);
    if Unreserved(c) {
      assert (e + tail)[0] == c && (e + tail)[1..] == tail;
    } else {
      var p := PercentByte(c as int);
      assert e == p by {
        assert Utf8(c) == [c as int];
        assert PercentBytes([c as int]) == p + PercentBytes([c as int][1..]);
        assert [c as int][1..] == [];
      }
      assert (e + tail)[..3] == p && (e + tail)[3..] == tail;
      assert ((c as int) as char) == c;
    }
  }

  /** Decoding undoes the encoding on ASCII text. */
  lemma {:induction false} EncodeDecodeAscii(s: string)
    requires IsAscii(s)
    ensures DecodeAscii(EncodeURIComponent(s)) == Some(s)
  {
    if s != [] {
      EncodeDecodeAscii(s[1..]);
      DecodeEncodedChar(s[0], EncodeURIComponent(s[1..]));
      assert [s[0]] + s[1..] == s;
    }
  }

  /** ---------- links ---------- */

  const GoogleMapsQuery := "https://www.google.com/maps/dir/?api=1&destination="

  /** The link the address line points at; the card passes its stitched address. */
  function GoogleMapsLink(address: string): (r: string)
    ensures |r| >= |GoogleMapsQuery| && r[..|GoogleMapsQuery|] == GoogleMapsQuery
  {
    GoogleMapsQuery + EncodeURIComponent(address)
  }

  /** Decoding what follows the fixed prefix gives the ASCII address back. */
  lemma GoogleMapsLinkAddress(address: string)
    requires IsAscii(address)
    ensures DecodeAscii(GoogleMapsLink(address)[|GoogleMapsQuery|..]) == Some(address)
  {
    assert GoogleMapsLink(address)[|GoogleMapsQuery|..] == EncodeURIComponent(address);
    EncodeDecodeAscii(address);
  }

  /** A word of unreserved characters is kept and the space after it is written `%20`. */
  lemma EncodeWordSpace(word: string, rest: string)
    requires forall i :: 0 <= i < |word| ==> Unreserved(word[i])
    ensures EncodeURIComponent(word + " " + rest) == word + "%20" + EncodeURIComponent(rest)
  {
    EncodeUnreserved(word);
    EncodeConcat(word, " " + rest);
    EncodeConcat(" ", rest);
    assert word + " " + rest == word + (" " + rest);
    assert EncodeURIComponent(" ") == "%20" by {
      assert Utf8(' ') == [32];
      assert PercentBytes([32]) == PercentByte(32) + PercentBytes([32][1..]);
      assert [32][1..] == [];
    }
  }

  /** A comma is written `%2C`, as in the component's test addresses. */
  lemma EncodeCommaThen(rest: string)
    ensures EncodeURIComponent("," + rest) == "%2C" + EncodeURIComponent(rest)
  {
    assert Utf8(',') == [44];
    assert PercentBytes([44]) == PercentByte(44) + PercentBytes([44][1..]);
    assert [44][1..] == [];
    EncodeConcat(",", rest);
  }

  const DefaultImageUrl := "https://as2.ftcdn.net/v2/jpg/04/70/29/97/1000_F_470299797_UD0eoVMMSUbHCcNJCdv2t8B2g1GVqYgs.jpg"

  /** `imageUrl || <default>`: a missing or empty image URL falls back to the stock picture. */
  function ImageSource(imageUrl: Option<string>): (r: string)
    ensures r != ""
    ensures r == DefaultImageUrl <==> imageUrl.None? || imageUrl.value == "" || imageUrl.value == DefaultImageUrl
  {
    if imageUrl.Some? && imageUrl.value != "" then imageUrl.value else DefaultImageUrl
  }

  /** The picture links to the space's own page. */
  function DetailLink(id: string): (r: string)
    ensures |r| == 8 + |id| && r[..8] == "/spaces/" && r[8..] == id
  {
    "/spaces/" + id
  }

  /** The phone link dials the number as given, not as formatted. */
  function TelLink(phoneNumber: string): (r: string)
    ensures |r| == 4 + |phoneNumber| && r[..4] == "tel:" && r[4..] == phoneNumber
  {
    "tel:" + phoneNumber
  }
}

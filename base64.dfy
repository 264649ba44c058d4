/**
 * The base 64 encoding of section 4 of RFC 4648 (alphabet A-Z, a-z, 0-9, '+', '/',
 * with '=' padding). The preview of a stored image carries the image's bytes in this
 * encoding (the browser's `btoa` over the bytes read as Latin-1 characters gives exactly
 * this text).
 *
 * The encoding is stated in two layers: octets regroup into 6-bit values (sextets), and
 * each sextet is written as one character of the alphabet. The decoder is the strict one:
 * a length that is not a multiple of four, characters outside the alphabet, padding
 * anywhere but at the end, and non-zero bits under the padding are all rejected, so that
 * encoding and decoding are inverse to each other in both directions.
 */
module Base64 {
  import opened Wrappers

  type byte = x: int | 0 <= x < 256
  type sextet = x: int | 0 <= x < 64

  predicate IsAlphabetChar(c: char) {
    ('A' <= c <= 'Z') || ('a' <= c <= 'z') || ('0' <= c <= '9') || c == '+' || c == '/'
  }

  /** Table 1 of RFC 4648: the character for a 6-bit value. */
  function SextetChar(x: sextet): (c: char)
    ensures IsAlphabetChar(c)
  {
    if x < 26 then ('A' as int + x) as char
    else if x < 52 then ('a' as int + x - 26) as char
    else if x < 62 then ('0' as int + x - 52) as char
    else if x == 62 then '+'
    else '/'
  }

  /** The inverse of Table 1: the 6-bit value of an alphabet character. */
  function CharSextet(c: char): (r: Option<sextet>)
    ensures r.Some? <==> IsAlphabetChar(c)
  {
    if 'A' <= c <= 'Z' then Some(c as int - 'A' as int)
    else if 'a' <= c <= 'z' then Some(c as int - 'a' as int + 26)
    else if '0' <= c <= '9' then Some(c as int - '0' as int + 52)
    else if c == '+' then Some(62)
    else if c == '/' then Some(63)
    else None
  }

  lemma SextetRoundTrip(x: sextet)
    ensures CharSextet(SextetChar(x)) == Some(x)
  {
  }

  lemma CharRoundTrip(c: char)
    requires IsAlphabetChar(c)
    ensures SextetChar(CharSextet(c).value) == c
  {
  }

  // ---------------------------------------------------------------------------
  // Layer 1: octets and sextets

  // The bit fields of a 24-bit group: octets a, b, c are sextets
  // a[7..2], a[1..0] b[7..4], b[3..0] c[7..6], c[5..0].

  function FirstSextet(a: byte): sextet { a / 4 }
  function SecondSextet(a: byte, b: byte): sextet { (a % 4) * 16 + b / 16 }
  function ThirdSextet(b: byte, c: byte): sextet { (b % 16) * 4 + c / 64 }
  function FourthSextet(c: byte): sextet { c % 64 }

  function FirstOctet(x0: sextet, x1: sextet): byte { x0 * 4 + x1 / 16 }
  function SecondOctet(x1: sextet, x2: sextet): byte { (x1 % 16) * 16 + x2 / 4 }
  function ThirdOctet(x2: sextet, x3: sextet): byte { (x2 % 4) * 64 + x3 }

  /** The four sextets of a 24-bit group of three octets. */
  function GroupSextets(a: byte, b: byte, c: byte): seq<sextet> {
    [FirstSextet(a), SecondSextet(a, b), ThirdSextet(b, c), FourthSextet(c)]
  }

  /** The sextets of a byte string; a final one or two octets give two or three sextets,
    * the missing bits taken as zero. */
  function ToSextets(bytes: seq<byte>): seq<sextet>
    decreases |bytes|
  {
    if |bytes| == 0 then []
    else if |bytes| == 1 then [FirstSextet(bytes[0]), SecondSextet(bytes[0], 0)]
    else if |bytes| == 2 then
      [FirstSextet(bytes[0]), SecondSextet(bytes[0], bytes[1]), ThirdSextet(bytes[1], 0)]
    else GroupSextets(bytes[0], bytes[1], bytes[2]) + ToSextets(bytes[3..])
  }

  /** The octets of a sextet string, or None when its length leaves a lone sextet or the
    * bits below the final octet are not zero. */
  function FromSextets(xs: seq<sextet>): Option<seq<byte>>
    decreases |xs|
  {
    if |xs| == 0 then Some([])
    else if |xs| == 1 then None
    else if |xs| == 2 then
      if xs[1] % 16 == 0 then Some([FirstOctet(xs[0], xs[1])]) else None
    else if |xs| == 3 then
      if xs[2] % 4 == 0 then Some([FirstOctet(xs[0], xs[1]), SecondOctet(xs[1], xs[2])]) else None
    else
      match FromSextets(xs[4..])
      case None => None
      case Some(rest) =>
        Some([FirstOctet(xs[0], xs[1]), SecondOctet(xs[1], xs[2]), ThirdOctet(xs[2], xs[3])] + rest)
  }

  /** Every three octets give four sextets, and a final one or two give two or three. */
  lemma {:induction false} SextetCount(bytes: seq<byte>)
    ensures |ToSextets(bytes)| == (4 * |bytes| + 2) / 3
    decreases |bytes|
  {
    if |bytes| >= 3 {
      SextetCount(bytes[3..]);
    }
  }

  lemma Split3(p: int, q: int)
    requires 0 <= q < 3
    ensures (p * 3 + q) % 3 == q
  {
  }

  lemma Split4(p: int, q: int)
    requires 0 <= q < 4
    ensures (p * 4 + q) / 4 == p && (p * 4 + q) % 4 == q
  {
  }

  lemma Split16(p: int, q: int)
    requires 0 <= q < 16
    ensures (p * 16 + q) / 16 == p && (p * 16 + q) % 16 == q
  {
  }

  lemma Split64(p: int, q: int)
    requires 0 <= q < 64
    ensures (p * 64 + q) / 64 == p && (p * 64 + q) % 64 == q
  {
  }

  /** Regrouping three octets into sextets and back gives the octets. */
  lemma GroupBack(a: byte, b: byte, c: byte)
    ensures FirstOctet(FirstSextet(a), SecondSextet(a, b)) == a
    ensures SecondOctet(SecondSextet(a, b), ThirdSextet(b, c)) == b
    ensures ThirdOctet(ThirdSextet(b, c), FourthSextet(c)) == c
  {
    Split16(a % 4, b / 16);
    Split4(b % 16, c / 64);
  }

  /** The sextet that ends a short group has zero bits where the missing octet would be. */
  lemma ZeroTail(a: byte, b: byte)
    ensures SecondSextet(a, 0) % 16 == 0 && ThirdSextet(b, 0) % 4 == 0
  {
    Split16(a % 4, 0);
    Split4(b % 16, 0);
  }

  /** Regrouping four sextets into octets and back gives the sextets. */
  lemma SextetsBack(x0: sextet, x1: sextet, x2: sextet, x3: sextet)
    ensures FirstSextet(FirstOctet(x0, x1)) == x0
    ensures SecondSextet(FirstOctet(x0, x1), SecondOctet(x1, x2)) == x1
    ensures ThirdSextet(SecondOctet(x1, x2), ThirdOctet(x2, x3)) == x2
    ensures FourthSextet(ThirdOctet(x2, x3)) == x3
  {
    Split4(x0, x1 / 16);
    Split16(x1 % 16, x2 / 4);
    Split64(x2 % 4, x3);
  }

  /** The same, for a short group whose bits under the padding are zero. */
  lemma ShortBack(x0: sextet, x1: sextet, x2: sextet)
    ensures x1 % 16 == 0 ==> SecondSextet(FirstOctet(x0, x1), 0) == x1
    ensures x2 % 4 == 0 ==> ThirdSextet(SecondOctet(x1, x2), 0) == x2
  {
    Split4(x0, x1 / 16);
    Split16(x1 % 16, x2 / 4);
  }

  lemma ReadTwo(xs: seq<sextet>)
    requires |xs| == 2 && xs[1] % 16 == 0
    ensures FromSextets(xs) == Some([FirstOctet(xs[0], xs[1])])
  {
  }

  lemma ReadThree(xs: seq<sextet>)
    requires |xs| == 3 && xs[2] % 4 == 0
    ensures FromSextets(xs) == Some([FirstOctet(xs[0], xs[1]), SecondOctet(xs[1], xs[2])])
  {
  }

  lemma ReadQuantum(xs: seq<sextet>)
    requires |xs| >= 4
    ensures var rest := FromSextets(xs[4..]);
            FromSextets(xs) ==
              if rest.Some? then
                Some([FirstOctet(xs[0], xs[1]), SecondOctet(xs[1], xs[2]), ThirdOctet(xs[2], xs[3])] + rest.value)
              else None
  {
  }

  /** Reading back the sextets of one trailing octet. */
  lemma OneOctetBack(a: byte)
    ensures FromSextets([FirstSextet(a), SecondSextet(a, 0)]) == Some([a])
  {
    var xs := [FirstSextet(a), SecondSextet(a, 0)];
    assert xs[0] == FirstSextet(a) && xs[1] == SecondSextet(a, 0);
    ZeroTail(a, 0);
    ReadTwo(xs);
    GroupBack(a, 0, 0);
    var o := FirstOctet(xs[0], xs[1]);
    assert o == a;
    assert [o] == [a];
  }

  /** Reading back the sextets of two trailing octets. */
  lemma TwoOctetsBack(a: byte, b: byte)
    ensures FromSextets([FirstSextet(a), SecondSextet(a, b), ThirdSextet(b, 0)]) == Some([a, b])
  {
    var xs := [FirstSextet(a), SecondSextet(a, b), ThirdSextet(b, 0)];
    assert xs[0] == FirstSextet(a) && xs[1] == SecondSextet(a, b) && xs[2] == ThirdSextet(b, 0);
    ZeroTail(a, b);
    ReadThree(xs);
    GroupBack(a, b, 0);
    var o0, o1 := FirstOctet(xs[0], xs[1]), SecondOctet(xs[1], xs[2]);
    assert o0 == a && o1 == b;
    assert [o0, o1] == [a, b];
  }

  lemma OneOctetRoundTrip(a: byte)
    ensures FromSextets(ToSextets([a])) == Some([a])
  {
    assert ToSextets([a]) == [FirstSextet(a), SecondSextet(a, 0)];
    OneOctetBack(a);
  }

  lemma TwoOctetsRoundTrip(a: byte, b: byte)
    ensures FromSextets(ToSextets([a, b])) == Some([a, b])
  {
    assert ToSextets([a, b]) == [FirstSextet(a), SecondSextet(a, b), ThirdSextet(b, 0)];
    TwoOctetsBack(a, b);
  }

  lemma FromToOne(bytes: seq<byte>)
    requires |bytes| == 1
    ensures FromSextets(ToSextets(bytes)) == Some(bytes)
  {
    OneOctetRoundTrip(bytes[0]);
    assert bytes == [bytes[0]];
  }

  lemma FromToTwo(bytes: seq<byte>)
    requires |bytes| == 2
    ensures FromSextets(ToSextets(bytes)) == Some(bytes)
  {
    TwoOctetsRoundTrip(bytes[0], bytes[1]);
    assert bytes == [bytes[0], bytes[1]];
  }

  /** Reading a group of four sextets in front of others that read as `rest`. */
  lemma GroupRead(a: byte, b: byte, c: byte, tail: seq<sextet>, rest: seq<byte>)
    requires FromSextets(tail) == Some(rest)
    ensures FromSextets(GroupSextets(a, b, c) + tail) == Some([a, b, c] + rest)
  {
    var xs := GroupSextets(a, b, c) + tail;
    assert xs[4..] == tail;
    assert xs[0] == FirstSextet(a) && xs[1] == SecondSextet(a, b);
    assert xs[2] == ThirdSextet(b, c) && xs[3] == FourthSextet(c);
    ReadQuantum(xs);
    GroupBack(a, b, c);
    var o0, o1, o2 := FirstOctet(xs[0], xs[1]), SecondOctet(xs[1], xs[2]), ThirdOctet(xs[2], xs[3]);
    assert o0 == a && o1 == b && o2 == c;
    assert [o0, o1, o2] == [a, b, c];
  }

  lemma StepSextets(bytes: seq<byte>)
    requires |bytes| >= 3
    ensures ToSextets(bytes) == GroupSextets(bytes[0], bytes[1], bytes[2]) + ToSextets(bytes[3..])
  {
    assert |bytes| != 0 && |bytes| != 1 && |bytes| != 2;
  }

  /** Reading back the sextets of a leading group of three octets. */
  lemma FromToStep(bytes: seq<byte>)
    requires |bytes| >= 3
    requires FromSextets(ToSextets(bytes[3..])) == Some(bytes[3..])
    ensures FromSextets(ToSextets(bytes)) == Some(bytes)
  {
    var a, b, c, tail, rest := bytes[0], bytes[1], bytes[2], ToSextets(bytes[3..]), bytes[3..];
    StepSextets(bytes);
    GroupRead(a, b, c, tail, rest);
    Cons3(bytes);
  }

  lemma Cons3(bytes: seq<byte>)
    requires |bytes| >= 3
    ensures [bytes[0], bytes[1], bytes[2]] + bytes[3..] == bytes
  {
  }

  lemma {:induction false} FromToSextets(bytes: seq<byte>)
    ensures FromSextets(ToSextets(bytes)) == Some(bytes)
    decreases |bytes|
  {
    if |bytes| == 1 {
      FromToOne(bytes);
    } else if |bytes| == 2 {
      FromToTwo(bytes);
    } else if |bytes| >= 3 {
      FromToSextets(bytes[3..]);
      FromToStep(bytes);
    }
  }

  /** Regrouping the octets read from two or three trailing sextets. */
  lemma ToFromShort(xs: seq<sextet>)
    requires |xs| <= 3 && FromSextets(xs).Some?
    ensures ToSextets(FromSextets(xs).value) == xs
  {
    if |xs| == 2 {
      SextetsBack(xs[0], xs[1], 0, 0);
      ShortBack(xs[0], xs[1], 0);
    } else if |xs| == 3 {
      SextetsBack(xs[0], xs[1], xs[2], 0);
      ShortBack(xs[0], xs[1], xs[2]);
    }
  }

  /** Regrouping the octets read from a leading quantum of four sextets. */
  lemma ToFromStep(xs: seq<sextet>)
    requires |xs| >= 4 && FromSextets(xs).Some?
    ensures FromSextets(xs[4..]).Some?
    ensures ToSextets(FromSextets(xs).value) == xs[..4] + ToSextets(FromSextets(xs[4..]).value)
  {
    var bytes := FromSextets(xs).value;
    var rest := FromSextets(xs[4..]).value;
    SextetsBack(xs[0], xs[1], xs[2], xs[3]);
    assert bytes[3..] == rest;
    assert GroupSextets(bytes[0], bytes[1], bytes[2]) == xs[..4];
  }

  lemma {:induction false} ToFromSextets(xs: seq<sextet>)
    requires FromSextets(xs).Some?
    ensures ToSextets(FromSextets(xs).value) == xs
    decreases |xs|
  {
    if |xs| <= 3 {
      ToFromShort(xs);
    } else {
      ToFromStep(xs);
      ToFromSextets(xs[4..]);
      assert xs[..4] + xs[4..] == xs;
    }
  }

  // ---------------------------------------------------------------------------
  // Layer 2: sextets and characters

  function Chars(xs: seq<sextet>): (s: string)
    ensures |s| == |xs|
    ensures forall i :: 0 <= i < |s| ==> IsAlphabetChar(s[i])
  {
    seq(|xs|, i requires 0 <= i < |xs| => SextetChar(xs[i]))
  }

  function Sextets(s: string): (r: Option<seq<sextet>>)
    ensures r.Some? ==> |r.value| == |s|
  {
    if forall i :: 0 <= i < |s| ==> IsAlphabetChar(s[i])
    then Some(seq(|s|, i requires 0 <= i < |s| => CharSextet(s[i]).value))
    else None
  }

  lemma SextetsChars(xs: seq<sextet>)
    ensures Sextets(Chars(xs)) == Some(xs)
  {
    var s := Chars(xs);
    assert forall i :: 0 <= i < |s| ==> IsAlphabetChar(s[i]);
    forall i | 0 <= i < |xs|
      ensures CharSextet(s[i]).value == xs[i]
    {
      SextetRoundTrip(xs[i]);
    }
    assert Sextets(s).value == xs;
  }

  lemma CharsSextets(s: string)
    requires Sextets(s).Some?
    ensures Chars(Sextets(s).value) == s
  {
    forall i | 0 <= i < |s| {
      CharRoundTrip(s[i]);
    }
  }

  // ---------------------------------------------------------------------------
  // The encoding

  /** The number of '=' characters that pad the text of `n` octets. */
  function PadLength(n: nat): nat {
    if n % 3 == 0 then 0 else 3 - n % 3
  }

  function Padding(n: nat): string {
    seq(n, _ => '=')
  }

  /** Padded base 64 text of a byte string. */
  function Encode(bytes: seq<byte>): string {
    Chars(ToSextets(bytes)) + Padding(PadLength(|bytes|))
  }

  /** The text with up to two trailing '=' characters removed. */
  function Unpadded(s: string): (body: string)
    ensures |s| - 2 <= |body| <= |s| && body == s[..|body|]
    ensures forall i :: |body| <= i < |s| ==> s[i] == '='
  {
    if |s| >= 2 && s[|s| - 2..] == "==" then s[..|s| - 2]
    else if |s| >= 1 && s[|s| - 1] == '=' then s[..|s| - 1]
    else s
  }

  /** Strict decoding of padded base 64 text; None for text no byte string encodes to. */
  function Decode(s: string): Option<seq<byte>> {
    if |s| % 4 != 0 then None
    else
      match Sextets(Unpadded(s))
      case None => None
      case Some(xs) => FromSextets(xs)
  }

  /** Every encoding is a whole number of four-character quanta. */
  lemma EncodeLength(bytes: seq<byte>)
    ensures |Encode(bytes)| == 4 * ((|bytes| + 2) / 3)
  {
    SextetCount(bytes);
  }

  lemma UnpadTwo(body: string)
    ensures Unpadded(body + Padding(2)) == body
  {
    var s := body + Padding(2);
    assert s[|s| - 2..] == "==";
    assert s[..|s| - 2] == body;
  }

  lemma UnpadOne(body: string)
    requires |body| >= 1 && IsAlphabetChar(body[|body| - 1])
    ensures Unpadded(body + Padding(1)) == body
  {
    var s := body + Padding(1);
    assert s[|s| - 2] == body[|body| - 1];
    assert s[|s| - 1] == '=';
    assert s[..|s| - 1] == body;
  }

  lemma UnpadNone(body: string)
    requires |body| == 0 || IsAlphabetChar(body[|body| - 1])
    ensures Unpadded(body + Padding(0)) == body
  {
    var s := body + Padding(0);
    assert s == body;
  }

  /** Removing the padding of an encoding leaves the characters of its sextets. */
  lemma UnpaddedEncode(bytes: seq<byte>)
    ensures Unpadded(Encode(bytes)) == Chars(ToSextets(bytes))
  {
    var body := Chars(ToSextets(bytes));
    var n := PadLength(|bytes|);
    SextetCount(bytes);
    assert |body| >= 2 || n == 0;
    if n == 2 {
      UnpadTwo(body);
    } else if n == 1 {
      UnpadOne(body);
    } else {
      UnpadNone(body);
    }
  }

  /** Decoding undoes encoding: every byte string is recovered from its base 64 text. */
  lemma DecodeEncode(bytes: seq<byte>)
    ensures Decode(Encode(bytes)) == Some(bytes)
  {
    var s := Encode(bytes);
    var k := (|bytes| + 2) / 3;
    EncodeLength(bytes);
    Split4(k, 0);
    assert |s| % 4 == 0;
    UnpaddedEncode(bytes);
    SextetsChars(ToSextets(bytes));
    FromToSextets(bytes);
  }

  /** The lengths a sextet string with an octet reading can have, and that reading's length. */
  lemma {:induction false} FromSextetsLength(xs: seq<sextet>)
    requires FromSextets(xs).Some?
    ensures |xs| % 4 != 1
    ensures |FromSextets(xs).value| == |xs| / 4 * 3 + (if |xs| % 4 == 0 then 0 else |xs| % 4 - 1)
    decreases |xs|
  {
    if |xs| >= 4 {
      FromSextetsLength(xs[4..]);
    }
  }

  /** The padding an octet string of the decoded length needs is what the text had. */
  lemma PaddingFits(nx: nat, ns: nat, nb: nat)
    requires ns % 4 == 0 && ns - 2 <= nx <= ns && nx % 4 != 1
    requires nb == nx / 4 * 3 + (if nx % 4 == 0 then 0 else nx % 4 - 1)
    ensures PadLength(nb) == ns - nx
  {
    var q, r := nx / 4, nx % 4;
    var t := ns / 4;
    assert nx == 4 * q + r && ns == 4 * t;
    if r == 0 {
      assert q == t;
      Split3(q, 0);
    } else if r == 2 {
      assert q == t - 1;
      Split3(q, 1);
    } else {
      assert q == t - 1;
      Split3(q, 2);
    }
  }

  /** Text ending in '=' characters after its body is that body padded. */
  lemma PaddedBody(s: string, body: string)
    requires |body| <= |s| && body == s[..|body|]
    requires forall i :: |body| <= i < |s| ==> s[i] == '='
    ensures s == body + Padding(|s| - |body|)
  {
  }

  /** Encoding undoes decoding: text the strict decoder accepts is the canonical encoding. */
  lemma EncodeDecode(s: string)
    requires Decode(s).Some?
    ensures Encode(Decode(s).value) == s
  {
    var body := Unpadded(s);
    var xs := Sextets(body).value;
    var bytes := FromSextets(xs).value;
    CharsSextets(body);
    ToFromSextets(xs);
    FromSextetsLength(xs);
    PaddingFits(|xs|, |s|, |bytes|);
    PaddedBody(s, body);
  }
}

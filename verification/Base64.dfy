/** Base64 (RFC 4648 sections 4 and 5) as the program uses it: two alphabets, with or
    without padding, and a decoder that skips line breaks and ignores stray trailing bits.
  */
module Base64 {
  import opened Base

  newtype Byte = b: int | 0 <= b < 256
  type Bytes = seq<Byte>

  datatype Encoding = Encoding(urlAlphabet: bool, padded: bool)

  const STD := Encoding(false, true)
  const RAW_STD := Encoding(false, false)
  const URL := Encoding(true, true)
  const RAW_URL := Encoding(true, false)

  const PAD := '='

  function Char(e: Encoding, d: int): (c: char)
    requires 0 <= d < 64
    ensures Digit(e, c) == Some(d)
    ensures c != PAD && c != '.' && !LineBreak(c)
  {
    if d < 26 then 'A' + (d as char)
    else if d < 52 then 'a' + ((d - 26) as char)
    else if d < 62 then '0' + ((d - 52) as char)
    else if d == 62 then (if e.urlAlphabet then '-' else '+')
    else (if e.urlAlphabet then '_' else '/')
  }

  function Digit(e: Encoding, c: char): (d: Option<int>)
    ensures d.Some? ==> 0 <= d.value < 64
  {
    if 'A' <= c <= 'Z' then Some(c as int - 'A' as int)
    else if 'a' <= c <= 'z' then Some(c as int - 'a' as int + 26)
    else if '0' <= c <= '9' then Some(c as int - '0' as int + 52)
    else if c == (if e.urlAlphabet then '-' else '+') then Some(62)
    else if c == (if e.urlAlphabet then '_' else '/') then Some(63)
    else None
  }

  predicate LineBreak(c: char) {
    c == '\n' || c == '\r'
  }

  // The four sextets of three bytes, and back.
  function P(a: int): int { a / 4 }
  function Q(a: int, b: int): int { a % 4 * 16 + b / 16 }
  function R(b: int, c: int): int { b % 16 * 4 + c / 64 }
  function S(c: int): int { c % 64 }

  function First(p: int, q: int): Byte requires 0 <= p < 64 && 0 <= q < 64 { (p * 4 + q / 16) as Byte }
  function Second(q: int, r: int): Byte requires 0 <= q < 64 && 0 <= r < 64 { (q % 16 * 16 + r / 4) as Byte }
  function Third(r: int, s: int): Byte requires 0 <= r < 64 && 0 <= s < 64 { (r % 4 * 64 + s) as Byte }

  function Encode(e: Encoding, s: Bytes): string {
    if |s| < 3 then EncodeLast(e, s)
    else
      var a, b, c := s[0] as int, s[1] as int, s[2] as int;
      [Char(e, P(a)), Char(e, Q(a, b)), Char(e, R(b, c)), Char(e, S(c))] + Encode(e, s[3..])
  }

  function EncodeLast(e: Encoding, s: Bytes): string
    requires |s| < 3
  {
    if |s| == 0 then ""
    else if |s| == 1 then
      [Char(e, P(s[0] as int)), Char(e, Q(s[0] as int, 0))] + (if e.padded then [PAD, PAD] else "")
    else
      [Char(e, P(s[0] as int)), Char(e, Q(s[0] as int, s[1] as int)), Char(e, R(s[1] as int, 0))]
      + (if e.padded then [PAD] else "")
  }

  function WithoutLineBreaks(t: string): string {
    if t == "" then "" else if LineBreak(t[0]) then WithoutLineBreaks(t[1..]) else [t[0]] + WithoutLineBreaks(t[1..])
  }

  function Decode(e: Encoding, t: string): Option<Bytes> {
    DecodeQuanta(e, WithoutLineBreaks(t))
  }

  function DecodeQuanta(e: Encoding, t: string): Option<Bytes> {
    if t == "" then Some([])
    else if |t| >= 4 && Digit(e, t[0]).Some? && Digit(e, t[1]).Some? && Digit(e, t[2]).Some?
        && Digit(e, t[3]).Some? then
      var (p, q, r, s) := (Digit(e, t[0]).value, Digit(e, t[1]).value, Digit(e, t[2]).value, Digit(e, t[3]).value);
      match DecodeQuanta(e, t[4..])
      case Some(rest) => Some([First(p, q), Second(q, r), Third(r, s)] + rest)
      case None => None
    else DecodeLast(e, t)
  }

  /** The final quantum, when it is short or padded. */
  function DecodeLast(e: Encoding, t: string): Option<Bytes> {
    if |t| < 2 || Digit(e, t[0]).None? || Digit(e, t[1]).None? then None
    else
      var p, q := Digit(e, t[0]).value, Digit(e, t[1]).value;
      var rest := t[2..];
      if rest == (if e.padded then [PAD, PAD] else "") then Some([First(p, q)])
      else if |rest| == (if e.padded then 2 else 1) && Digit(e, rest[0]).Some? && (e.padded ==> rest[1] == PAD) then
        Some([First(p, q), Second(q, Digit(e, rest[0]).value)])
      else None
  }

  /** Test vectors of section 10 of RFC 4648, one for each way a text may end. */
  lemma VectorF()
    ensures Encode(STD, [102]) == "Zg==" && Encode(RAW_URL, [102]) == "Zg"
  {
  }

  lemma VectorFo()
    ensures Encode(URL, [102, 111]) == "Zm8=" && Encode(RAW_STD, [102, 111]) == "Zm8"
  {
  }

  lemma VectorFoo()
    ensures Encode(STD, [102, 111, 111]) == "Zm9v"
  {
    assert [102 as Byte, 111, 111][3..] == [];
  }

  /** Where the alphabets differ. */
  lemma VectorOfLastDigits()
    ensures Encode(STD, [251, 255]) == "+/8=" && Encode(RAW_URL, [251, 255]) == "-_8"
  {
  }

  // ----- what the encoder writes -----

  /** A character some encoding of this alphabet may write. */
  predicate Written(e: Encoding, c: char) {
    Digit(e, c).Some? || (e.padded && c == PAD)
  }

  lemma {:induction false} EncodeWrites(e: Encoding, s: Bytes)
    ensures forall i :: 0 <= i < |Encode(e, s)| ==> Written(e, Encode(e, s)[i])
    ensures s != [] ==> Encode(e, s) != ""
  {
    if |s| > 2 {
      EncodeWrites(e, s[3..]);
    }
  }

  lemma {:induction false} NoLineBreaks(t: string)
    requires forall i :: 0 <= i < |t| ==> !LineBreak(t[i])
    ensures WithoutLineBreaks(t) == t
  {
    if t != "" {
      NoLineBreaks(t[1..]);
    }
  }

  lemma EncodedHasNoLineBreaks(e: Encoding, s: Bytes)
    ensures WithoutLineBreaks(Encode(e, s)) == Encode(e, s)
  {
    EncodeWrites(e, s);
    NoLineBreaks(Encode(e, s));
  }

  /** Base64url output never contains the separator of a compact token. */
  lemma EncodedHasNoDot(e: Encoding, s: Bytes)
    ensures '.' !in Encode(e, s)
  {
    EncodeWrites(e, s);
  }

  // ----- decoding undoes encoding, and no other decoder of the program disagrees -----

  lemma SextetsRoundTrip(a: int, b: int, c: int)
    requires 0 <= a < 256 && 0 <= b < 256 && 0 <= c < 256
    ensures 0 <= P(a) < 64 && 0 <= Q(a, b) < 64 && 0 <= R(b, c) < 64 && 0 <= S(c) < 64
    ensures First(P(a), Q(a, b)) as int == a
    ensures Second(Q(a, b), R(b, c)) as int == b
    ensures Third(R(b, c), S(c)) as int == c
  {
  }

  /** A decoder reads one full quantum written by an encoder, or refuses the text. */
  lemma FullQuantum(d: Encoding, e: Encoding, x: Byte, y: Byte, z: Byte, tail: string)
    ensures var (a, b, c) := (x as int, y as int, z as int);
            var t := [Char(e, P(a)), Char(e, Q(a, b)), Char(e, R(b, c)), Char(e, S(c))] + tail;
            var r := DecodeQuanta(d, t); var rest := DecodeQuanta(d, tail);
            && (r == None || (rest.Some? && r == Some([x, y, z] + rest.value)))
            && (d == e && rest.Some? ==> r.Some?)
  {
    var (a, b, c) := (x as int, y as int, z as int);
    var t := [Char(e, P(a)), Char(e, Q(a, b)), Char(e, R(b, c)), Char(e, S(c))] + tail;
    SextetsRoundTrip(a, b, c);
    DigitsAgree(d, e, P(a));
    DigitsAgree(d, e, Q(a, b));
    DigitsAgree(d, e, R(b, c));
    DigitsAgree(d, e, S(c));
    assert t[4..] == tail;
    LongNeverLast(d, t);
  }

  lemma LastQuantum(d: Encoding, e: Encoding, s: Bytes)
    requires |s| < 3
    ensures var r := DecodeQuanta(d, EncodeLast(e, s)); (r == None || r == Some(s)) && (d == e ==> r == Some(s))
  {
    var t := EncodeLast(e, s);
    if s != [] {
      assert |t| == 4 ==> t[3] == PAD && Digit(d, PAD) == None;
      assert DecodeQuanta(d, t) == DecodeLast(d, t);
      if |s| == 1 {
        LastByte(d, e, s[0]);
        assert s == [s[0]];
      } else {
        LastTwoBytes(d, e, s[0], s[1]);
        assert s == [s[0], s[1]];
      }
    }
  }

  lemma LastByte(d: Encoding, e: Encoding, x: Byte)
    ensures var r := DecodeLast(d, EncodeLast(e, [x])); (r == None || r == Some([x])) && (d == e ==> r == Some([x]))
  {
    var p, q := OneByte(x);
    DigitsAgree(d, e, p);
    DigitsAgree(d, e, q);
    LastByteRead(d, e, Char(e, p), Char(e, q), p, q);
    assert EncodeLast(e, [x]) == [Char(e, p), Char(e, q)] + if e.padded then [PAD, PAD] else "";
  }

  lemma OneByte(x: Byte) returns (p: int, q: int)
    ensures p == P(x as int) && q == Q(x as int, 0) && 0 <= p < 64 && 0 <= q < 64 && First(p, q) == x
  {
    p, q := P(x as int), Q(x as int, 0);
    assert q == x as int % 4 * 16;
    assert q / 16 == x as int % 4;
  }

  lemma LastByteRead(d: Encoding, e: Encoding, cp: char, cq: char, p: int, q: int)
    requires 0 <= p < 64 && 0 <= q < 64
    requires Digit(d, cp) == None || Digit(d, cp) == Some(p)
    requires Digit(d, cq) == None || Digit(d, cq) == Some(q)
    ensures var r := DecodeLast(d, [cp, cq] + if e.padded then [PAD, PAD] else "");
            r == None || r == Some([First(p, q)])
    ensures d == e && Digit(d, cp).Some? && Digit(d, cq).Some? ==>
              DecodeLast(d, [cp, cq] + if e.padded then [PAD, PAD] else "") == Some([First(p, q)])
  {
    var t := [cp, cq] + if e.padded then [PAD, PAD] else "";
    assert t[2..] == if e.padded then [PAD, PAD] else "";
    assert Digit(d, PAD) == None;
  }

  lemma LastTwoBytes(d: Encoding, e: Encoding, x: Byte, y: Byte)
    ensures var r := DecodeLast(d, EncodeLast(e, [x, y]));
            (r == None || r == Some([x, y])) && (d == e ==> r == Some([x, y]))
  {
    var p, q, r := TwoBytes(x, y);
    DigitsAgree(d, e, p);
    DigitsAgree(d, e, q);
    DigitsAgree(d, e, r);
    LastTwoRead(d, e, Char(e, p), Char(e, q), Char(e, r), p, q, r);
    assert EncodeLast(e, [x, y]) == [Char(e, p), Char(e, q), Char(e, r)] + if e.padded then [PAD] else "";
  }

  lemma TwoBytes(x: Byte, y: Byte) returns (p: int, q: int, r: int)
    ensures p == P(x as int) && q == Q(x as int, y as int) && r == R(y as int, 0)
    ensures 0 <= p < 64 && 0 <= q < 64 && 0 <= r < 64 && First(p, q) == x && Second(q, r) == y
  {
    p, q, r := P(x as int), Q(x as int, y as int), R(y as int, 0);
    SextetsRoundTrip(x as int, y as int, 0);
  }

  lemma LastTwoRead(d: Encoding, e: Encoding, cp: char, cq: char, cr: char, p: int, q: int, r: int)
    requires 0 <= p < 64 && 0 <= q < 64 && 0 <= r < 64 && cr != PAD
    requires Digit(d, cp) == None || Digit(d, cp) == Some(p)
    requires Digit(d, cq) == None || Digit(d, cq) == Some(q)
    requires Digit(d, cr) == None || Digit(d, cr) == Some(r)
    ensures var a := DecodeLast(d, [cp, cq, cr] + if e.padded then [PAD] else "");
            && (a == None || a == Some([First(p, q), Second(q, r)]))
            && (d == e && Digit(d, cp).Some? && Digit(d, cq).Some? && Digit(d, cr).Some? ==> a.Some?)
  {
    var t := [cp, cq, cr] + if e.padded then [PAD] else "";
    assert t[2..] == [cr] + if e.padded then [PAD] else "";
    assert t[2..] != [PAD, PAD] && t[2..] != "" && t[2..][0] == cr;
  }

  lemma DigitsAgree(d: Encoding, e: Encoding, x: int)
    requires 0 <= x < 64
    ensures Digit(d, Char(e, x)) == None || Digit(d, Char(e, x)) == Some(x)
  {
  }

  /** A quantum whose fourth character is no padding is never a final one. */
  lemma LongNeverLast(d: Encoding, t: string)
    requires |t| >= 4 && t[3] != PAD
    ensures DecodeLast(d, t) == None
  {
    assert t[2..][1] == t[3];
  }

  /** Whatever decoder d makes of text written by encoder e, it is the original or a refusal,
      and the encoder's own decoder does not refuse. */
  lemma {:induction false} QuantaAgree(d: Encoding, e: Encoding, s: Bytes)
    ensures var r := DecodeQuanta(d, Encode(e, s)); (r == None || r == Some(s)) && (d == e ==> r == Some(s))
  {
    if |s| < 3 {
      LastQuantum(d, e, s);
    } else {
      FullQuantum(d, e, s[0], s[1], s[2], Encode(e, s[3..]));
      QuantaAgree(d, e, s[3..]);
      assert s == [s[0], s[1], s[2]] + s[3..];
    }
  }

  lemma RoundTrip(e: Encoding, s: Bytes)
    ensures Decode(e, Encode(e, s)) == Some(s)
  {
    EncodedHasNoLineBreaks(e, s);
    QuantaAgree(e, e, s);
  }

  lemma DecodersAgree(d: Encoding, e: Encoding, s: Bytes)
    ensures var r := Decode(d, Encode(e, s)); r == None || r == Some(s)
  {
    EncodedHasNoLineBreaks(e, s);
    QuantaAgree(d, e, s);
  }
}

/** Key material from the environment: whichever of the four encodings fits first. */
module KeyDecoding {
  import opened Base
  import opened Base64

  const ORDER: seq<Encoding> := [STD, RAW_STD, URL, RAW_URL]

  /** Tries the standard alphabet, then the URL one, padded before unpadded. */
  method DecodeBase64(raw: string) returns (out: Option<Bytes>)
    ensures out.Some? <==> exists e :: e in ORDER && Decode(e, raw).Some?
    ensures out.Some? ==> exists i :: 0 <= i < |ORDER| && Decode(ORDER[i], raw) == out
                                      && forall j :: 0 <= j < i ==> Decode(ORDER[j], raw).None?
    ensures forall e, s {:trigger Encode(e, s)} :: raw == Encode(e, s) ==> out == Some(s)
  {
    for i := 0 to |ORDER|
      invariant forall j :: 0 <= j < i ==> Decode(ORDER[j], raw).None?
    {
      out := Decode(ORDER[i], raw);
      if out.Some? {
        forall e, s | raw == Encode(e, s) ensures out == Some(s) {
          DecodersAgree(ORDER[i], e, s);
        }
        assert ORDER[i] in ORDER;
        return;
      }
    }
    forall e, s | raw == Encode(e, s) ensures false {
      RoundTrip(e, s);
      EncodingListed(e);
    }
    return None;
  }

  lemma EncodingListed(e: Encoding)
    ensures exists i :: 0 <= i < |ORDER| && ORDER[i] == e
  {
    assert ORDER[0] == STD && ORDER[1] == RAW_STD && ORDER[2] == URL && ORDER[3] == RAW_URL;
  }
}

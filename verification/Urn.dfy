/** Percent-encoding of URNs for LinkedIn's paths, and the analytics finder's entity literal. */
module Urn {
  import opened Base

  /** The four replacements of the path encoder; every other character stands for itself. */
  function EncodeChar(c: char): string {
    if c == ':' then "%3A" else if c == '(' then "%28" else if c == ')' then "%29" else if c == ',' then "%2C" else [c]
  }

  function EncodeURN(urn: string): string {
    if urn == "" then "" else EncodeChar(urn[0]) + EncodeURN(urn[1..])
  }

  /** Kind and encoded URN, in the literal ParseEntity reads. */
  function EntityParam(urn: string): string {
    "(" + Kind(urn) + ":" + EncodeURN(urn) + ")"
  }

  function Kind(urn: string): string {
    if Contains(urn, ":ugcPost:") then "ugc" else "share"
  }

  predicate Contains(s: string, t: string) {
    t <= s || (s != "" && Contains(s[1..], t))
  }

  // ----- the reader at the other end -----

  function Hex(c: char): (d: Option<int>)
    ensures d.Some? ==> 0 <= d.value < 16
  {
    if '0' <= c <= '9' then Some(c as int - '0' as int)
    else if 'A' <= c <= 'F' then Some(c as int - 'A' as int + 10)
    else if 'a' <= c <= 'f' then Some(c as int - 'a' as int + 10)
    else None
  }

  /** Percent-decoding (RFC 3986 section 2.1): every '%' must introduce two hexadecimal digits. */
  function Decode(t: string): Option<string> {
    if t == "" then Some("")
    else if t[0] != '%' then
      match Decode(t[1..])
      case Some(rest) => Some([t[0]] + rest)
      case None => None
    else if |t| >= 3 && Hex(t[1]).Some? && Hex(t[2]).Some? then
      match Decode(t[3..])
      case Some(rest) => Some([(Hex(t[1]).value * 16 + Hex(t[2]).value) as char] + rest)
      case None => None
    else None
  }

  predicate Plain(s: string) {
    forall i :: 0 <= i < |s| ==> s[i] != '%'
  }

  predicate Reserved(c: char) {
    c == ':' || c == '(' || c == ')' || c == ','
  }

  predicate NoReserved(s: string) {
    forall i :: 0 <= i < |s| ==> !Reserved(s[i])
  }

  lemma {:induction false} EncodedHasNoReserved(urn: string)
    ensures NoReserved(EncodeURN(urn))
  {
    if urn != "" {
      EncodedHasNoReserved(urn[1..]);
    }
  }

  /** One encoded character in front of any text decodes to that character, unless it is '%'. */
  lemma DecodeStep(c: char, rest: string)
    requires c != '%'
    ensures Decode(EncodeChar(c) + rest) == match Decode(rest) case Some(r) => Some([c] + r) case None => None
  {
  }

  lemma {:induction false} DecodeUndoesEncode(urn: string)
    requires Plain(urn)
    ensures Decode(EncodeURN(urn)) == Some(urn)
  {
    if urn != "" {
      DecodeUndoesEncode(urn[1..]);
      DecodeStep(urn[0], EncodeURN(urn[1..]));
      assert urn == [urn[0]] + urn[1..];
    }
  }

  lemma FirstOfEncoded(c: char, rest: string)
    ensures (EncodeChar(c) + rest)[0] == if Reserved(c) then '%' else c
  {
  }

  lemma DigitStandsForItself(c: char, rest: string)
    requires Hex((EncodeChar(c) + rest)[0]).Some?
    ensures EncodeChar(c) == [c]
  {
    FirstOfEncoded(c, rest);
  }

  /** A hexadecimal digit at the front of encoded text was there before. */
  lemma EncodedDigit(urn: string)
    requires EncodeURN(urn) != "" && Hex(EncodeURN(urn)[0]).Some?
    ensures urn != "" && EncodeURN(urn) == [urn[0]] + EncodeURN(urn[1..])
  {
    DigitStandsForItself(urn[0], EncodeURN(urn[1..]));
  }

  /** Decoding never lengthens the original, and shortens it as soon as it has a '%'. */
  lemma {:induction false} DecodedLength(urn: string)
    ensures var r := Decode(EncodeURN(urn));
            r.Some? ==> |r.value| <= |urn| && (!Plain(urn) ==> |r.value| < |urn|)
  {
    if urn == "" {
    } else if urn[0] != '%' {
      DecodeStep(urn[0], EncodeURN(urn[1..]));
      DecodedLength(urn[1..]);
    } else {
      var t := EncodeURN(urn);
      assert t[1..] == EncodeURN(urn[1..]);
      if |t| >= 3 && Hex(t[1]).Some? && Hex(t[2]).Some? {
        assert t[1] == EncodeURN(urn[1..])[0];
        EncodedDigit(urn[1..]);
        assert t[2] == EncodeURN(urn[1..][1..])[0];
        EncodedDigit(urn[1..][1..]);
        assert t[3..] == EncodeURN(urn[1..][1..][1..]);
        DecodedLength(urn[1..][1..][1..]);
      }
    }
  }

  /** The encoding can be undone exactly for the URNs without '%'. */
  lemma ReadableExactlyWhenPlain(urn: string)
    ensures Decode(EncodeURN(urn)) == Some(urn) <==> Plain(urn)
  {
    DecodedLength(urn);
    if Plain(urn) {
      DecodeUndoesEncode(urn);
    }
  }

  lemma EncodeInjectiveOnPlain(a: string, b: string)
    requires Plain(a) && Plain(b) && EncodeURN(a) == EncodeURN(b)
    ensures a == b
  {
    DecodeUndoesEncode(a);
    DecodeUndoesEncode(b);
  }

  /** Beyond them two URNs may share one path. */
  lemma EncodeNotInjective()
    ensures EncodeURN(":") == EncodeURN("%3A")
  {
  }

  /** The text up to the first colon, and what follows. */
  function UntilColon(t: string): Option<(string, string)> {
    if t == "" then None
    else if t[0] == ':' then Some(("", t[1..]))
    else match UntilColon(t[1..])
         case Some((a, b)) => Some(([t[0]] + a, b))
         case None => None
  }

  /** Reads "(kind:urn)". */
  function ParseEntity(t: string): Option<(string, string)> {
    if |t| < 2 || t[0] != '(' || t[|t| - 1] != ')' then None
    else match UntilColon(t[1..|t| - 1])
      case None => None
      case Some((kind, encoded)) =>
        if (kind != "ugc" && kind != "share") || !NoReserved(encoded) then None
        else match Decode(encoded)
          case Some(urn) => Some((kind, urn))
          case None => None
  }

  /** s has t from position i on. */
  predicate HasAt(s: string, t: string, i: nat) {
    i <= |s| && t <= s[i..]
  }

  lemma {:induction false} ContainsExactly(s: string, t: string)
    ensures Contains(s, t) <==> exists i: nat | i <= |s| :: HasAt(s, t, i)
  {
    if t <= s {
      assert HasAt(s, t, 0);
    } else if s != "" {
      ContainsExactly(s[1..], t);
      if i: nat :| i <= |s[1..]| && HasAt(s[1..], t, i) {
        assert s[1..][i..] == s[i + 1..];
        assert HasAt(s, t, i + 1);
      }
      if i: nat :| i <= |s| && HasAt(s, t, i) {
        assert i > 0 && s[1..][i - 1..] == s[i..];
        assert HasAt(s[1..], t, i - 1);
      }
    }
  }

  /** What is not reserved stands for itself, and texts are encoded piece by piece. */
  lemma {:induction false} EncodesPieces(a: string, b: string)
    ensures EncodeURN(a + b) == EncodeURN(a) + EncodeURN(b)
    ensures NoReserved(a) ==> EncodeURN(a) == a
  {
    if a == "" {
      assert a + b == b;
    } else {
      assert (a + b)[1..] == a[1..] + b && a == [a[0]] + a[1..];
      EncodesPieces(a[1..], b);
    }
  }

  lemma {:induction false} UntilColonIs(a: string, b: string)
    requires NoReserved(a)
    ensures UntilColon(a + ":" + b) == Some((a, b))
  {
    var t := a + ":" + b;
    if a == "" {
      assert t[1..] == b;
    } else {
      assert t[1..] == a[1..] + ":" + b;
      UntilColonIs(a[1..], b);
      assert [a[0]] + a[1..] == a;
    }
  }

  /** The literal reads back to one kind and one URN: the one it was made from, and ugc exactly if that says so. */
  lemma EntityParamReadsBack(urn: string)
    requires Plain(urn)
    ensures ParseEntity(EntityParam(urn)) ==
            Some((if exists i: nat | i <= |urn| :: HasAt(urn, ":ugcPost:", i) then "ugc" else "share", urn))
  {
    ContainsExactly(urn, ":ugcPost:");
    var t := EntityParam(urn);
    assert t[1..|t| - 1] == Kind(urn) + ":" + EncodeURN(urn);
    UntilColonIs(Kind(urn), EncodeURN(urn));
    EncodedHasNoReserved(urn);
    DecodeUndoesEncode(urn);
  }
}

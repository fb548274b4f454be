/** Access tokens: compact HS256 JWTs (RFC 7515 section 7.1).

    JSON and HMAC are library behaviour and enter as functions: a JSON encoder with its
    decoder, and a signing function of the signing input.
  */
module Jwt {
  import opened Base
  import Base64

  datatype Header = Header(alg: string, typ: string)

  datatype Claims = Claims(
    issuer: string, subject: string, audience: string, clientId: string,
    issuedAt: int, expiresAt: int, jti: string)

  datatype Codec = Codec(
    encodeHeader: Header -> Base64.Bytes, decodeHeader: Base64.Bytes -> Option<Header>,
    encodeClaims: Claims -> Base64.Bytes, decodeClaims: Base64.Bytes -> Option<Claims>)

  datatype Signer = Signer(issuer: string, resource: string, accessTtl: int, sign: string -> Base64.Bytes, json: Codec)

  /** What the proofs take of the libraries: decoding undoes encoding, and neither a JSON
      object nor a MAC is empty. */
  ghost predicate Sound(s: Signer) {
    && (forall h :: s.json.decodeHeader(s.json.encodeHeader(h)) == Some(h) && s.json.encodeHeader(h) != [])
    && (forall c :: s.json.decodeClaims(s.json.encodeClaims(c)) == Some(c) && s.json.encodeClaims(c) != [])
    && forall x :: s.sign(x) != []
  }

  const HS256 := Header("HS256", "JWT")

  function NewClaims(s: Signer, tenantId: string, clientId: string, jti: string, now: int): Claims {
    Claims(s.issuer, tenantId, s.resource, clientId, Unix(now), Unix(now + s.accessTtl), jti)
  }

  function Segment(b: Base64.Bytes): string {
    Base64.Encode(Base64.RAW_URL, b)
  }

  function Serialize(s: Signer, c: Claims): string {
    var input := Segment(s.json.encodeHeader(HS256)) + "." + Segment(s.json.encodeClaims(c));
    input + "." + Segment(s.sign(input))
  }

  /** The serialized claims, and their expiry before it was cut to whole seconds. */
  function MintAccessToken(s: Signer, tenantId: string, clientId: string, jti: string, now: int): (string, int) {
    (Serialize(s, NewClaims(s, tenantId, clientId, jti, now)), now + s.accessTtl)
  }

  predicate NoDot(x: string) {
    forall i :: 0 <= i < |x| ==> x[i] != '.'
  }

  /** What stands before and after the first dot. */
  function Cut(t: string): (r: Option<(string, string)>)
    ensures r.Some? ==> t == r.value.0 + "." + r.value.1 && NoDot(r.value.0)
    ensures r.None? ==> NoDot(t)
  {
    if t == "" then None
    else if t[0] == '.' then
      assert t == "" + "." + t[1..];
      Some(("", t[1..]))
    else match Cut(t[1..])
         case Some((a, b)) =>
           assert t == [t[0]] + a + "." + b;
           Some(([t[0]] + a, b))
         case None => None
  }

  /** None unless the token is what SplitTokenAccepts describes. */
  function SplitToken(token: string): Option<(string, string, string)> {
    match Cut(token)
    case None => None
    case Some((header, rest)) =>
      match Cut(rest)
      case None => None
      case Some((payload, signature)) =>
        if header == "" || payload == "" || signature == "" || !NoDot(signature) then None
        else Some((header, payload, signature))
  }

  /** The claims of a token this signer accepts at this instant. */
  function VerifyAccessToken(s: Signer, token: string, now: int): Option<Claims> {
    match SplitToken(token)
    case None => None
    case Some((h, p, sig)) =>
      match DecodeSegment(s.json.decodeHeader, h)
      case None => None
      case Some(header) =>
        if header.alg != "HS256" || (header.typ != "" && header.typ != "JWT") then None
        else match Base64.Decode(Base64.RAW_URL, sig)
          case None => None
          case Some(signature) =>
            if signature != s.sign(h + "." + p) then None else VerifyClaims(s, p, now)
  }

  function VerifyClaims(s: Signer, payload: string, now: int): Option<Claims> {
    match DecodeSegment(s.json.decodeClaims, payload)
    case None => None
    case Some(claims) =>
      if claims.issuer != s.issuer || claims.audience != s.resource then None
      else if claims.subject == "" then None
      else if claims.expiresAt == 0 || !(now < claims.expiresAt * SECOND) then None
      else Some(claims)
  }

  function DecodeSegment<T>(decode: Base64.Bytes -> Option<T>, segment: string): Option<T> {
    match Base64.Decode(Base64.RAW_URL, segment)
    case None => None
    case Some(raw) => decode(raw)
  }

  predicate IsSegment(x: string) {
    x != "" && NoDot(x)
  }

  lemma {:induction false} CutAt(a: string, b: string)
    requires NoDot(a)
    ensures Cut(a + "." + b) == Some((a, b))
  {
    var t := a + "." + b;
    if a == "" {
      assert t[1..] == b;
    } else {
      assert t[1..] == a[1..] + "." + b;
      CutAt(a[1..], b);
      assert [a[0]] + a[1..] == a;
    }
  }

  /** The splitter accepts exactly the joins of three nonempty dot-free segments, and returns them. */
  lemma SplitTokenAccepts(token: string, h: string, p: string, sig: string)
    ensures SplitToken(token) == Some((h, p, sig)) <==>
            token == h + "." + (p + "." + sig) && IsSegment(h) && IsSegment(p) && IsSegment(sig)
  {
    if token == h + "." + (p + "." + sig) && IsSegment(h) && IsSegment(p) && IsSegment(sig) {
      CutAt(h, p + "." + sig);
      CutAt(p, sig);
    }
  }

  /** What makes token h.p.sig genuine: the right header, the signer's own MAC of what precedes the signature, and its
      claims, made for this server, about somebody, and not expired. */
  predicate Genuine(s: Signer, h: string, p: string, sig: string, now: int, c: Claims) {
    && Base64.Decode(Base64.RAW_URL, sig) == Some(s.sign(h + "." + p))
    && (var header := Base64.Decode(Base64.RAW_URL, h);
        && header.Some? && s.json.decodeHeader(header.value).Some?
        && s.json.decodeHeader(header.value).value.alg == "HS256"
        && s.json.decodeHeader(header.value).value.typ in {"", "JWT"})
    && (var payload := Base64.Decode(Base64.RAW_URL, p);
        payload.Some? && s.json.decodeClaims(payload.value) == Some(c))
    && c.issuer == s.issuer && c.audience == s.resource && c.subject != ""
    && c.expiresAt != 0 && now < c.expiresAt * SECOND
  }

  /** A token is accepted, with these claims, if and only if it is a genuine one: nothing forged gets through, and
      nothing genuine is refused. */
  lemma AcceptedExactlyWhenGenuine(s: Signer, token: string, now: int, c: Claims)
    ensures VerifyAccessToken(s, token, now) == Some(c) <==>
            exists h, p, sig :: token == h + "." + (p + "." + sig) && IsSegment(h) && IsSegment(p) && IsSegment(sig)
                                && Genuine(s, h, p, sig, now, c)
  {
    if h, p, sig :| token == h + "." + (p + "." + sig) && IsSegment(h) && IsSegment(p) && IsSegment(sig)
                    && Genuine(s, h, p, sig, now, c) {
      SplitTokenAccepts(token, h, p, sig);
    }
    if VerifyAccessToken(s, token, now) == Some(c) {
      var (h, p, sig) := SplitToken(token).value;
      SplitTokenAccepts(token, h, p, sig);
      assert Genuine(s, h, p, sig, now, c);
    }
  }

  /** In particular a signature that does not decode to the signer's MAC is refused at any time, whatever else the
      token says. */
  lemma ForgeryIsRefused(s: Signer, h: string, p: string, sig: string, now: int)
    requires IsSegment(h) && IsSegment(p) && IsSegment(sig)
    requires Base64.Decode(Base64.RAW_URL, sig) != Some(s.sign(h + "." + p))
    ensures VerifyAccessToken(s, h + "." + (p + "." + sig), now) == None
  {
    SplitTokenAccepts(h + "." + (p + "." + sig), h, p, sig);
  }

  lemma SegmentOfBytes(b: Base64.Bytes)
    requires b != []
    ensures IsSegment(Segment(b)) && Base64.Decode(Base64.RAW_URL, Segment(b)) == Some(b)
  {
    Base64.EncodeWrites(Base64.RAW_URL, b);
    Base64.EncodedHasNoDot(Base64.RAW_URL, b);
    assert forall i :: 0 <= i < |Segment(b)| ==> Segment(b)[i] in Segment(b);
    Base64.RoundTrip(Base64.RAW_URL, b);
  }

  /** Claims of this server, serialized, verify to themselves exactly until their whole-second deadline. */
  lemma SerializedVerifies(s: Signer, c: Claims, now: int)
    requires Sound(s) && c.issuer == s.issuer && c.audience == s.resource && c.subject != "" && c.expiresAt != 0
    ensures VerifyAccessToken(s, Serialize(s, c), now) == if now < c.expiresAt * SECOND then Some(c) else None
  {
    var h, p := Segment(s.json.encodeHeader(HS256)), Segment(s.json.encodeClaims(c));
    var sig := Segment(s.sign(h + "." + p));
    SegmentOfBytes(s.json.encodeHeader(HS256));
    SegmentOfBytes(s.json.encodeClaims(c));
    SegmentOfBytes(s.sign(h + "." + p));
    assert Serialize(s, c) == h + "." + (p + "." + sig);
    SplitTokenAccepts(Serialize(s, c), h, p, sig);
    assert VerifyAccessToken(s, Serialize(s, c), now) == VerifyClaims(s, p, now);
  }

  /** A minted token verifies to its own claims exactly until its whole-second deadline. */
  lemma MintThenVerify(s: Signer, tenantId: string, clientId: string, jti: string, minted: int, now: int)
    requires Sound(s) && tenantId != ""
    requires Unix(minted + s.accessTtl) != 0  // the clock and the lifetimes are positive
    ensures VerifyAccessToken(s, MintAccessToken(s, tenantId, clientId, jti, minted).0, now) ==
            if now < Unix(minted + s.accessTtl) * SECOND then Some(NewClaims(s, tenantId, clientId, jti, minted))
                else None
  {
    SerializedVerifies(s, NewClaims(s, tenantId, clientId, jti, minted), now);
  }

  // ----- the advertised lifetime -----

  /** Go's int64(d.Seconds()): whole seconds, towards zero. */
  function WholeSeconds(d: int): int {
    if d >= 0 then d / SECOND else -(-d / SECOND)
  }

  lemma WholeSecondsCuts(d: int)
    ensures d >= 0 ==> 0 <= d - WholeSeconds(d) * SECOND < SECOND
    ensures d <= 0 ==> 0 <= WholeSeconds(d) * SECOND - d < SECOND
  {
  }

  /** The end of life a client computes when it adds expires_in to the moment of the answer. */
  function AdvertisedEnd(expiry: int, answered: int): int {
    answered + WholeSeconds(expiry - answered) * SECOND
  }

  /** For a non-negative expires_in, that end is less than a second off the deadline the server
      enforces exactly when the answer leaves no later than the second of the expiry. */
  lemma AdvertisedLifetime(expiry: int, answered: int)
    requires WholeSeconds(expiry - answered) >= 0
    ensures -SECOND < AdvertisedEnd(expiry, answered) - Unix(expiry) * SECOND < SECOND
            <==> Unix(answered) <= Unix(expiry)
  {
  }

  /** Truncation towards zero lets a late answer advertise 0 seconds, and be more than a second off. */
  lemma LateAnswerIsFurtherOff()
    ensures var (expiry, answered) := (1_900_000_000, 2_500_000_000);
            WholeSeconds(expiry - answered) == 0 && AdvertisedEnd(expiry, answered) - Unix(expiry) * SECOND > SECOND
  {
  }
}

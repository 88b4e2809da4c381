/**
 Signed session tokens (api/tokens.py). The secret and the clock are parameters, HMAC is any function
 to hex, and `int()` is any reader of texts: outside ASCII it accepts more digits than those of
 `ParseInt`, and very long numerals less.
 */
module Tokens {
  import opened Wrappers
  import opened Text
  import Utf8
  import Base64

  /** The signature of a message under the configured secret; None when no secret is configured. */
  type Signer = Option<string -> string>

  /** `int(s)`: None is ValueError. */
  type Reader = string -> Option<int>

  /** On this text the reader does what is specified for ASCII texts. */
  ghost predicate ReadsPlainly(read: Reader, s: string) { read(s) == ParseInt(s) }

  datatype Verified = Verified(userId: string, expiresAt: int)

  const MALFORMED := TokenError("malformed token")
  const UNSIGNED := TokenError("invalid signature")
  const EXPIRED := TokenError("token expired")

  predicate IsHex(c: char) { '0' <= c <= '9' || 'a' <= c <= 'f' }

  /** What `hexdigest` returns. */
  ghost predicate Hexadecimal(mac: string -> string) {
    forall m :: |mac(m)| == 64 && forall i :: 0 <= i < 64 ==> IsHex(mac(m)[i])
  }

  predicate Ascii(s: string) { forall i :: 0 <= i < |s| ==> (s[i] as int) < 128 }

  function B64Encode(raw: string): string { Base64.Stripped(Base64.Encode(Utf8.Encode(raw))) }

  function B64Decode(encoded: string): Result<string> {
    var bytes := Base64.Decode(encoded + Base64.Padding(|encoded|));
    if bytes.None? then Err(MALFORMED)
    else
      var text := Utf8.Decode(bytes.value);
      if text.None? then Err(MALFORMED) else Ok(text.value)
  }

  /** `_sign`: only ASCII payloads can be signed. */
  function Sign(signer: Signer, payload: string): Result<string> {
    if signer.None? then Err(TokenError("SELFEVALS_AUTH_SECRET is not configured"))
    else if !Ascii(payload) then Err(ValueError)
    else Ok(signer.value(payload))
  }

  function SignV1(signer: Signer, userId: string, expiresAt: int): Result<string> {
    if signer.None? then Err(TokenError("SELFEVALS_AUTH_SECRET is not configured"))
    else Ok(signer.value(userId + "." + Decimal(expiresAt)))
  }

  /** `hmac.compare_digest` on text. */
  function CompareDigest(a: string, b: string): Result<bool> {
    if !Ascii(a) || !Ascii(b) then Err(TypeError) else Ok(a == b)
  }

  function Payload(userId: string, expiresAt: int): string { userId + "|" + Decimal(expiresAt) }

  function Token(payload: string, signature: string): string { "v2." + payload + "." + signature }

  /** `issue_token_with_expiry`. */
  function Issue(signer: Signer, userId: string, ttlSeconds: int, now: int): Result<(string, int)> {
    if userId == "" then Err(TokenError("user_id is required"))
    else
      var expiresAt := now + ttlSeconds;
      var payload := B64Encode(Payload(userId, expiresAt));
      var signature :- Sign(signer, payload);
      Ok((Token(payload, signature), expiresAt))
  }

  function Unexpired(userId: string, expiresAt: int, now: int): Result<Verified> {
    if expiresAt < now then Err(EXPIRED) else Ok(Verified(userId, expiresAt))
  }

  function VerifyV1(read: Reader, signer: Signer, token: string, now: int): Result<Verified> {
    var parts := Split(token, '.');
    if |parts| != 3 || parts[0] == "" then Err(MALFORMED)
    else
      var expiresAt := read(parts[1]);
      if expiresAt.None? then Err(MALFORMED)
      else
        var signature :- SignV1(signer, parts[0], expiresAt.value);
        var same :- CompareDigest(signature, parts[2]);
        if !same then Err(UNSIGNED) else Unexpired(parts[0], expiresAt.value, now)
  }

  predicate IsV2(token: string) { |token| >= 3 && token[..3] == "v2." }

  /** `verify_token`. */
  function Verify(read: Reader, signer: Signer, token: string, now: int): Result<Verified> {
    if !IsV2(token) then VerifyV1(read, signer, token, now)
    else
      var parts := Split(token, '.');
      if |parts| != 3 then Err(MALFORMED)
      else
        var signature :- Sign(signer, parts[1]);
        var same :- CompareDigest(signature, parts[2]);
        if !same then Err(UNSIGNED)
        else
          var decoded :- B64Decode(parts[1]);
          ReadPayload(read, decoded, now)
  }

  function ReadPayload(read: Reader, decoded: string, now: int): Result<Verified> {
    var fields := RPartition(decoded, '|');
    if fields.None? || fields.value.0 == "" then Err(MALFORMED)
    else
      var expiresAt := read(fields.value.1);
      if expiresAt.None? then Err(MALFORMED) else Unexpired(fields.value.0, expiresAt.value, now)
  }

  // ---- The codec ----

  /** Decoding without padding inverts encoding, for any text. */
  lemma B64RoundTrip(raw: string)
    ensures B64Decode(B64Encode(raw)) == Ok(raw)
    ensures Ascii(B64Encode(raw)) && '.' !in B64Encode(raw)
  {
    var bytes := Utf8.Encode(raw);
    Base64.StripAndPad(bytes);
    Base64.RoundTrip(bytes);
    Base64.DigitsPlain(bytes);
    assert forall i :: 0 <= i < |B64Encode(raw)| ==> Base64.Plain(B64Encode(raw)[i]);
    Utf8.RoundTrip(raw);
  }

  /** The last bar separates the fields, whatever the user id contains. */
  lemma PayloadReads(read: Reader, userId: string, expiresAt: int, now: int)
    requires userId != "" && ReadsPlainly(read, Decimal(expiresAt))
    ensures ReadPayload(read, Payload(userId, expiresAt), now) == Unexpired(userId, expiresAt, now)
  {
    DecimalPlain(expiresAt, '|');
    RPartitionJoined(userId, Decimal(expiresAt), '|');
    ParseDecimal(expiresAt);
  }

  lemma HexPlain(mac: string -> string, m: string)
    requires Hexadecimal(mac)
    ensures '.' !in mac(m) && Ascii(mac(m))
  {
  }

  lemma TokenSplits(payload: string, signature: string)
    requires '.' !in payload && '.' !in signature
    ensures Split(Token(payload, signature), '.') == ["v2", payload, signature] && IsV2(Token(payload, signature))
  {
    var rest := payload + "." + signature;
    SplitPlain(signature, '.');
    SplitJoined(payload, signature, '.');
    SplitJoined("v2", rest, '.');
    assert Token(payload, signature) == "v2" + "." + rest;
    assert ["v2"] + ([payload] + [signature]) == ["v2", payload, signature];
    assert Token(payload, signature)[..3] == "v2.";
  }

  /** A token that carries its own signature is read from its payload. */
  lemma VerifyOwn(read: Reader, mac: string -> string, payload: string, decoded: string, now: int)
    requires Hexadecimal(mac) && Ascii(payload) && '.' !in payload && B64Decode(payload) == Ok(decoded)
    ensures Verify(read, Some(mac), Token(payload, mac(payload)), now) == ReadPayload(read, decoded, now)
  {
    HexPlain(mac, payload);
    TokenSplits(payload, mac(payload));
  }

  /**
   An issued token, verified under the same secret at any time not past its expiry, gives back
   the same user and expiry; past it, the token is expired.
   */
  lemma IssueThenVerify(read: Reader, mac: string -> string, userId: string, ttlSeconds: int, issuedAt: int, now: int)
    requires Hexadecimal(mac) && userId != "" && ReadsPlainly(read, Decimal(issuedAt + ttlSeconds))
    ensures var issued := Issue(Some(mac), userId, ttlSeconds, issuedAt);
            && issued.Ok? && issued.value.1 == issuedAt + ttlSeconds
            && Verify(read, Some(mac), issued.value.0, now)
               == if now <= issuedAt + ttlSeconds then Ok(Verified(userId, issuedAt + ttlSeconds)) else Err(EXPIRED)
  {
    var expiresAt := issuedAt + ttlSeconds;
    var payload := B64Encode(Payload(userId, expiresAt));
    B64RoundTrip(Payload(userId, expiresAt));
    VerifyOwn(read, mac, payload, Payload(userId, expiresAt), now);
    PayloadReads(read, userId, expiresAt, now);
  }

  // ---- What a verified token proves ----

  function Legacy(userId: string, raw: string, signature: string): string { userId + "." + raw + "." + signature }

  lemma {:induction false} SplitRebuilds(s: string)
    ensures |Split(s, '.')| == 1 ==> s == Split(s, '.')[0]
    ensures |Split(s, '.')| == 2 ==> s == Split(s, '.')[0] + "." + Split(s, '.')[1]
    ensures |Split(s, '.')| == 3 ==> s == Split(s, '.')[0] + "." + Split(s, '.')[1] + "." + Split(s, '.')[2]
  {
    if s != "" {
      SplitRebuilds(s[1..]);
      assert s == [s[0]] + s[1..];
    }
  }

  /** Only a token that carries the signature of its own content verifies, and only before it expires. */
  lemma VerifiedIsSigned(read: Reader, mac: string -> string, token: string, now: int)
    requires Verify(read, Some(mac), token, now).Ok?
    ensures var v := Verify(read, Some(mac), token, now).value;
            && v.userId != "" && now <= v.expiresAt
            && (|| (exists payload :: token == Token(payload, mac(payload)) && ReadsAs(read, payload, v))
                || (exists raw :: read(raw) == Some(v.expiresAt)
                                  && token == Legacy(v.userId, raw, mac(v.userId + "." + Decimal(v.expiresAt)))))
  {
    var parts := Split(token, '.');
    SplitRebuilds(token);
    if IsV2(token) {
      TokenHead(token);
      assert token == Token(parts[1], mac(parts[1]));
      assert ReadsAs(read, parts[1], Verify(read, Some(mac), token, now).value);
    } else {
      assert token == Legacy(parts[0], parts[1], parts[2]);
    }
  }

  ghost predicate ReadsAs(read: Reader, payload: string, v: Verified) {
    B64Decode(payload).Ok? && exists now :: ReadPayload(read, B64Decode(payload).value, now) == Ok(v)
  }

  lemma TokenHead(token: string)
    requires IsV2(token) && |Split(token, '.')| == 3
    ensures Split(token, '.')[0] == "v2"
  {
    assert token == "v2" + "." + token[3..];
    SplitJoined("v2", token[3..], '.');
  }

  // ---- The legacy format ----

  /** What v1 issued verifies exactly when the user id has no dot and is not the version tag itself. */
  lemma LegacyExactly(read: Reader, mac: string -> string, userId: string, expiresAt: int, now: int)
    requires Hexadecimal(mac) && userId != "" && now <= expiresAt && ReadsPlainly(read, Decimal(expiresAt))
    requires mac(Decimal(expiresAt)) != mac("v2." + Decimal(expiresAt))
    ensures Verify(read, Some(mac), Legacy(userId, Decimal(expiresAt), mac(userId + "." + Decimal(expiresAt))), now)
            == Ok(Verified(userId, expiresAt))
            <==> '.' !in userId && userId != "v2"
  {
    var raw, signature := Decimal(expiresAt), mac(userId + "." + Decimal(expiresAt));
    var token := Legacy(userId, raw, signature);
    DecimalPlain(expiresAt, '.');
    HexPlain(mac, userId + "." + raw);
    LegacySplits(userId, raw, signature);
    if '.' !in userId {
      ParseDecimal(expiresAt);
      LegacyHead(token, userId, raw + "." + signature);
    }
  }

  /** A dot in the user id makes a fourth part. */
  lemma LegacySplits(userId: string, raw: string, signature: string)
    requires '.' !in raw && '.' !in signature
    ensures var parts := Split(Legacy(userId, raw, signature), '.');
            if '.' in userId then |parts| > 3 else parts == [userId, raw, signature]
    ensures Legacy(userId, raw, signature) == userId + "." + (raw + "." + signature)
  {
    var tail := raw + "." + signature;
    assert Legacy(userId, raw, signature) == userId + "." + tail;
    SplitPlain(signature, '.');
    SplitJoined(raw, signature, '.');
    SplitSize(userId, tail, '.');
    SplitMany(userId, '.');
    if '.' !in userId {
      SplitJoined(userId, tail, '.');
      assert [userId] + ([raw] + [signature]) == [userId, raw, signature];
    }
  }

  lemma LegacyHead(token: string, userId: string, tail: string)
    requires token == userId + "." + tail && '.' !in userId
    ensures IsV2(token) <==> userId == "v2"
  {
    if IsV2(token) {
      assert token[0] == 'v' && token[1] == '2' && token[2] == '.';
      assert forall i :: 0 <= i < |userId| ==> token[i] == userId[i];
      assert forall i :: 0 <= i < |userId| ==> userId[i] != '.';
      assert |userId| == 2 ==> userId == ['v', '2'];
    }
    if userId == "v2" { assert token[..3] == "v2."; }
  }

  // ---- Which errors verification raises ----

  /** Which texts reach a comparison, or a signing, that they cannot go through. */
  ghost predicate OutsideAscii(read: Reader, token: string) {
    var parts := Split(token, '.');
    && |parts| == 3
    && if IsV2(token) then !Ascii(parts[1]) || !Ascii(parts[2])
       else parts[0] != "" && read(parts[1]).Some? && !Ascii(parts[2])
  }

  /**
   Whatever `int()` accepts, verification under a configured secret fails with something other than
   a TokenError exactly when a signature comparison is reached with text outside ASCII.
   */
  lemma OnlyTokenErrorsExactly(read: Reader, mac: string -> string, token: string, now: int)
    requires Hexadecimal(mac)
    ensures var r := Verify(read, Some(mac), token, now);
            r.Err? && !r.error.TokenError? <==> OutsideAscii(read, token)
  {
    var parts := Split(token, '.');
    if |parts| == 3 {
      HexPlain(mac, parts[1]);
      if read(parts[1]).Some? { HexPlain(mac, parts[0] + "." + Decimal(read(parts[1]).value)); }
    }
  }

  /** A v1 token whose expiry is a digit outside ASCII and whose signature is not ASCII raises TypeError. */
  lemma ForeignDigitRaisesTypeError(read: Reader, mac: string -> string, now: int)
    requires Hexadecimal(mac) && read("\U{0661}") == Some(1)
    ensures Verify(read, Some(mac), "u.\U{0661}.\U{00E9}", now) == Err(TypeError)
  {
    var token := "u.\U{0661}.\U{00E9}";
    LegacySplits("u", "\U{0661}", "\U{00E9}");
    assert token == Legacy("u", "\U{0661}", "\U{00E9}");
    HexPlain(mac, "u." + Decimal(1));
    assert "u" + "." + Decimal(1) == "u." + Decimal(1);
  }
}

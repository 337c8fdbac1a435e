/** Signed tokens: written and read by the web server, read by the collab server. */
module SignedTokens {
  import opened Prelude
  import opened Base64Url

  datatype Purpose = ParticipantAuth | OwnerAuth | OauthState | SessionGrant | GuestGrant | CollabTicket

  function Name(p: Purpose): string {
    match p
    case ParticipantAuth => "participant-auth"
    case OwnerAuth => "owner-auth"
    case OauthState => "oauth-state"
    case SessionGrant => "session-grant"
    case GuestGrant => "guest-grant"
    case CollabTicket => "collab-ticket"
  }

  /** A payload object: the two fields the collab server reads, and the others. */
  datatype Payload = Payload(kind: Option<string>, expiresAt: Option<int>, others: map<string, string>)

  /** HMAC-SHA256, JSON in UTF-8 and the secret of each purpose, all as given functions. */
  datatype Crypto = Crypto(
    hmac: (string, string) -> seq<Byte>,
    stringify: Payload -> seq<Byte>,
    parse: seq<Byte> -> Option<Payload>,
    secret: Purpose -> string)

  /** Parsing undoes writing, a written object and a digest are never empty, and the secret is set. */
  ghost predicate Faithful(c: Crypto) {
    && (forall p :: c.parse(c.stringify(p)) == Some(p))
    && (forall p :: |c.stringify(p)| > 0)
    && (forall s, m :: |c.hmac(s, m)| > 0)
    && (forall p :: c.secret(p) != "")
  }

  function Signature(c: Crypto, secret: string, purpose: string, encodedPayload: string): seq<Byte> {
    c.hmac(secret, purpose + "." + encodedPayload)
  }

  function SignPayload(c: Crypto, p: Payload, purpose: Purpose): string {
    var encoded := Encode(c.stringify(p));
    encoded + "." + Encode(Signature(c, c.secret(purpose), Name(purpose), encoded))
  }

  /** The text before the first "." and, if there is one, the text after it. */
  function Cut(s: string): (string, Option<string>) {
    if s == "" then ("", None)
    else if s[0] == '.' then ("", Some(s[1..]))
    else var (first, rest) := Cut(s[1..]); ([s[0]] + first, rest)
  }

  /** The first two of the parts between dots; a missing part reads as empty, which both readers refuse alike. */
  function Parts(token: string): (string, string) {
    var (payload, rest) := Cut(token);
    (payload, if rest.None? then "" else Cut(rest.value).0)
  }

  function VerifySignedPayload(c: Crypto, token: Option<string>, purpose: Purpose): Option<Payload> {
    if token.None? || token.value == "" then None
    else
      var (payload, signature) := Parts(token.value);
      if payload == "" || signature == "" then None
      else if Decode(signature) != Signature(c, c.secret(purpose), Name(purpose), payload) then None
      else c.parse(Decode(payload))
  }

  datatype TicketError = Missing | Malformed | InvalidSignature | Expired | Invalid

  datatype Verification = Accepted(payload: Payload) | Refused(error: TicketError)

  /** The collab server's reader; `token` is None when the client sent something other than a string. */
  function VerifyDetailed(c: Crypto, token: Option<string>, secret: Option<string>, now: int): Verification {
    if secret.None? || secret.value == "" then Refused(Missing)
    else if token.None? then Refused(Missing)
    else
      var (payload, signature) := Parts(token.value);
      if payload == "" || signature == "" then Refused(Malformed)
      else if Decode(signature) != Signature(c, secret.value, "collab-ticket", payload) then Refused(InvalidSignature)
      else
        match c.parse(Decode(payload))
        case None => Refused(Malformed)
        case Some(p) =>
          if p.kind != Some("collab-ticket") then Refused(Invalid)
          else if p.expiresAt.Some? && p.expiresAt.value < now then Refused(Expired)
          else Accepted(p)
  }

  lemma {:induction false} CutAtDot(a: string, b: string)
    requires '.' !in a
    ensures Cut(a + "." + b) == (a, Some(b)) && Cut(a) == (a, None)
  {
    if a == "" {
      assert (a + "." + b)[1..] == b;
    } else {
      CutAtDot(a[1..], b);
      assert (a + "." + b)[1..] == a[1..] + "." + b;
      assert a == [a[0]] + a[1..];
    }
  }

  lemma PartsOfSigned(c: Crypto, p: Payload, purpose: Purpose)
    requires Faithful(c)
    ensures
      var encoded := Encode(c.stringify(p));
      var signature := Signature(c, c.secret(purpose), Name(purpose), encoded);
      && Parts(SignPayload(c, p, purpose)) == (encoded, Encode(signature))
      && encoded != "" && Encode(signature) != ""
      && Decode(encoded) == c.stringify(p) && Decode(Encode(signature)) == signature
  {
    var encoded := Encode(c.stringify(p));
    var signature := Signature(c, c.secret(purpose), Name(purpose), encoded);
    EncodedText(c.stringify(p));
    EncodedText(signature);
    RoundTrip(c.stringify(p));
    RoundTrip(signature);
    CutAtDot(encoded, Encode(signature));
    CutAtDot(Encode(signature), "");
  }

  /** A token just signed is read back as its payload, for every payload and purpose. */
  lemma SignThenVerify(c: Crypto, p: Payload, purpose: Purpose)
    requires Faithful(c)
    ensures VerifySignedPayload(c, Some(SignPayload(c, p, purpose)), purpose) == Some(p)
  {
    PartsOfSigned(c, p, purpose);
  }

  /** The collab server accepts a ticket signed with its secret exactly when its kind is right and it has not expired. */
  lemma TicketAcceptedIff(c: Crypto, p: Payload, now: int)
    requires Faithful(c)
    ensures
      VerifyDetailed(c, Some(SignPayload(c, p, CollabTicket)), Some(c.secret(CollabTicket)), now) ==
      if p.kind != Some("collab-ticket") then Refused(Invalid)
      else if p.expiresAt.Some? && p.expiresAt.value < now then Refused(Expired)
      else Accepted(p)
  {
    PartsOfSigned(c, p, CollabTicket);
  }

  /** A token of two parts is read as its first part's payload exactly when the second is the digest of purpose and first. */
  lemma VerifiedByDigest(c: Crypto, payload: string, signature: string, purpose: Purpose)
    requires payload != "" && signature != "" && '.' !in payload && '.' !in signature
    ensures
      VerifySignedPayload(c, Some(payload + "." + signature), purpose) ==
      if Decode(signature) == c.hmac(c.secret(purpose), Name(purpose) + "." + payload) then c.parse(Decode(payload)) else None
    ensures VerifySignedPayload(c, None, purpose) == None == VerifySignedPayload(c, Some(payload), purpose)
  {
    CutAtDot(payload, signature);
    CutAtDot(signature, "");
  }

  /** Why a ticket is refused before its payload is read: nothing to read or no secret, a missing part, or another digest. */
  lemma TicketRefusedIf(c: Crypto, token: string, secret: string, payload: string, signature: string, now: int)
    requires secret != "" && '.' !in payload && '.' !in signature
    ensures VerifyDetailed(c, Some(token), None, now) == Refused(Missing) == VerifyDetailed(c, Some(token), Some(""), now)
    ensures VerifyDetailed(c, None, Some(secret), now) == Refused(Missing)
    ensures '.' !in token ==> VerifyDetailed(c, Some(token), Some(secret), now) == Refused(Malformed)
    ensures payload == "" || signature == "" ==> VerifyDetailed(c, Some(payload + "." + signature), Some(secret), now) == Refused(Malformed)
    ensures payload != "" && signature != "" && Decode(signature) != c.hmac(secret, "collab-ticket." + payload) ==>
      VerifyDetailed(c, Some(payload + "." + signature), Some(secret), now) == Refused(InvalidSignature)
  {
    CutAtDot(payload, signature);
    CutAtDot(signature, "");
    if '.' !in token {
      CutAtDot(token, "");
    }
    assert "collab-ticket" + "." + payload == "collab-ticket." + payload;
  }

  /** On every text whatever, the two readers of one secret accept the same payload, up to kind and expiry. */
  lemma ReadersAgree(c: Crypto, token: Option<string>, now: int, p: Payload)
    requires Faithful(c)
    ensures
      VerifyDetailed(c, token, Some(c.secret(CollabTicket)), now) == Accepted(p) <==>
      && VerifySignedPayload(c, token, CollabTicket) == Some(p)
      && p.kind == Some("collab-ticket") && !(p.expiresAt.Some? && p.expiresAt.value < now)
  {
    if token.Some? && token.value == "" {
      assert Parts("") == ("", "");
    }
  }

  /** A token of one purpose is read for another only if HMAC gives two different inputs the same digest. */
  lemma PurposesAreSeparate(c: Crypto, p: Payload, signed: Purpose, read: Purpose)
    requires Faithful(c) && signed != read
    requires VerifySignedPayload(c, Some(SignPayload(c, p, signed)), read).Some?
    ensures
      var m, n := Name(signed) + "." + Encode(c.stringify(p)), Name(read) + "." + Encode(c.stringify(p));
      m != n && c.hmac(c.secret(signed), m) == c.hmac(c.secret(read), n)
  {
    PartsOfSigned(c, p, signed);
    NameIsItsOwn(signed, read);
    CutAtDot(Name(signed), Encode(c.stringify(p)));
    CutAtDot(Name(read), Encode(c.stringify(p)));
  }

  lemma NameIsItsOwn(a: Purpose, b: Purpose)
    requires a != b
    ensures Name(a) != Name(b) && '.' !in Name(a) && '.' !in Name(b)
  {
    assert "oauth-state"[0] != "guest-grant"[0] && "session-grant"[0] != "collab-ticket"[0];
  }
}

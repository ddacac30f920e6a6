/** The signed, expiring state of the Google Drive authorization. */
module OauthState {
  import opened Bytes
  import opened Wrappers
  import opened Strings
  import Base64Url

  const TtlSeconds := 600
  const PayloadSeparator: byte := 124   // '|'
  const SignatureSeparator: byte := 46  // '.'

  type Uuid = nat

  /** What the code takes from elsewhere: the keyed MAC, and a uuid library. */
  datatype Env = Env(mac: Text -> Text, printUuid: Uuid -> Text, parseUuid: Text -> Option<Uuid>)

  ghost predicate Lawful(env: Env) {
    forall u: Uuid :: env.parseUuid(env.printUuid(u)) == Some(u) && PayloadSeparator !in env.printUuid(u)
  }

  function Payload(env: Env, u: Uuid, expiry: int): Text {
    env.printUuid(u) + [PayloadSeparator] + FormatInt(expiry)
  }

  /** signOauthState; now in Unix seconds */
  function Sign(env: Env, u: Uuid, now: int): Text {
    var payload := Payload(env, u, now + TtlSeconds);
    Base64Url.Encode(payload) + [SignatureSeparator] + Base64Url.Encode(env.mac(payload))
  }

  /** verifyOauthState; None is ErrUnauthorized */
  function Verify(env: Env, state: Text, now: int): Option<Uuid> {
    match Cut(state, SignatureSeparator)
    case None => None
    case Some((encodedPayload, encodedSignature)) =>
      match (Base64Url.Decode(encodedPayload), Base64Url.Decode(encodedSignature))
      case (Some(payload), Some(signature)) =>
        if signature != env.mac(payload) then None else VerifyPayload(env, payload, now)
      case _ => None
  }

  function VerifyPayload(env: Env, payload: Text, now: int): Option<Uuid> {
    match Cut(payload, PayloadSeparator)
    case None => None
    case Some((rawUuid, rawExpiry)) =>
      match ParseInt(rawExpiry)
      case None => None
      case Some(expiry) => if now > expiry then None else env.parseUuid(rawUuid)
  }

  lemma EncodedHasNoSeparator(x: Text)
    ensures SignatureSeparator !in Base64Url.Encode(x)
  {
  }

  lemma PayloadRoundTrip(env: Env, u: Uuid, expiry: int, now: int)
    requires Lawful(env) && -TwoTo63 <= expiry < TwoTo63
    ensures VerifyPayload(env, Payload(env, u, expiry), now) == if now <= expiry then Some(u) else None
  {
    CutAt(env.printUuid(u), PayloadSeparator, FormatInt(expiry));
    ParseFormatInt(expiry);
  }

  /** A payload under somebody's signature: accepted exactly when the verifier's
      own MAC of that payload is that signature and the payload is in order. */
  lemma VerifyCombined(env: Env, payload: Text, signature: Text, now: int)
    ensures Verify(env, Base64Url.Encode(payload) + [SignatureSeparator] + Base64Url.Encode(signature), now)
      == if signature == env.mac(payload) then VerifyPayload(env, payload, now) else None
  {
    EncodedHasNoSeparator(payload);
    CutAt(Base64Url.Encode(payload), SignatureSeparator, Base64Url.Encode(signature));
    Base64Url.DecodeEncode(payload);
    Base64Url.DecodeEncode(signature);
  }

  /** Main result: for every uuid and all times, what was signed at t verifies
      at t' to that uuid exactly until ten minutes have passed. */
  lemma SignVerify(env: Env, u: Uuid, t: int, t': int)
    requires Lawful(env) && -TwoTo63 <= t + TtlSeconds < TwoTo63
    ensures Verify(env, Sign(env, u, t), t') == if t' <= t + 600 then Some(u) else None
  {
    var payload := Payload(env, u, t + TtlSeconds);
    VerifyCombined(env, payload, env.mac(payload), t');
    PayloadRoundTrip(env, u, t + TtlSeconds, t');
  }

  /** Under another key: accepted only where both keys give one MAC. */
  lemma OtherKey(env: Env, other: Env, u: Uuid, t: int, t': int)
    requires Lawful(other) && -TwoTo63 <= t + TtlSeconds < TwoTo63
    requires other.printUuid == env.printUuid && other.parseUuid == env.parseUuid
    ensures var payload := Payload(env, u, t + TtlSeconds);
            Verify(other, Sign(env, u, t), t') ==
              if env.mac(payload) == other.mac(payload) && t' <= t + TtlSeconds then Some(u) else None
  {
    var payload := Payload(env, u, t + TtlSeconds);
    VerifyCombined(other, payload, env.mac(payload), t');
    PayloadRoundTrip(other, u, t + TtlSeconds, t');
  }

  /** Whatever text is accepted carries the MAC of its own payload, and its
      payload names the uuid and an expiry that has not passed. */
  lemma AcceptedCarriesMac(env: Env, state: Text, now: int) returns (payload: Text, expiry: int)
    requires Verify(env, state, now).Some?
    ensures exists p, s ::
              state == p + [SignatureSeparator] + s && Base64Url.Decode(p) == Some(payload)
                  && Base64Url.Decode(s) == Some(env.mac(payload))
    ensures now <= expiry
    ensures exists a, b ::
              payload == a + [PayloadSeparator] + b && ParseInt(b) == Some(expiry)
                  && env.parseUuid(a) == Verify(env, state, now)
  {
    var (p, s) := Cut(state, SignatureSeparator).value;
    payload := Base64Url.Decode(p).value;
    var (a, b) := Cut(payload, PayloadSeparator).value;
    expiry := ParseInt(b).value;
    assert state == p + [SignatureSeparator] + s;
    assert payload == a + [PayloadSeparator] + b;
  }

  /** Swapping the payload under an old signature needs a MAC collision. */
  lemma SwappedPayload(env: Env, u: Uuid, u': Uuid, t: int, now: int)
    requires Lawful(env) && -TwoTo63 <= t + TtlSeconds < TwoTo63
    ensures var old', new' := Payload(env, u, t + TtlSeconds), Payload(env, u', t + TtlSeconds);
            Verify(env, Base64Url.Encode(new') + [SignatureSeparator] + Base64Url.Encode(env.mac(old')), now)
              == if env.mac(old') == env.mac(new') && now <= t + TtlSeconds then Some(u') else None
  {
    var old', new' := Payload(env, u, t + TtlSeconds), Payload(env, u', t + TtlSeconds);
    VerifyCombined(env, new', env.mac(old'), now);
    PayloadRoundTrip(env, u', t + TtlSeconds, now);
  }
}

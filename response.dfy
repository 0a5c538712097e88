/** The response envelope of `Response.sendResponse`: every handler's result
    is wrapped as `{ data, message, status, id, token }`, where `token` is a
    fresh ten-minute token minted from the claims of the caller's own token,
    decoded without verification. The JSON Web Token library is passed in as
    two functions:
      decode(t)            -- `jwt.decode(t)`; its argument may be `undefined` (None)
      sign(claims, expiry) -- `jwt.sign(claims, secret, { expiresIn: expiry })`
    either of which may throw. */
module Response {
  import opened Js
  import opened Strings
  import opened Http

  const PayloadRequired := "Data/Message is required"
  const InternalError := "Internal Server Error"
  /** The `expiresIn` of every refreshed token. */
  const RefreshExpiry := "10m"
  /** The only keys a delivered body has. */
  const EnvelopeKeys: set<string> := {"data", "message", "status", "id", "token"}

  /** The reply to a call that supplies neither a message nor data. */
  const PayloadRequiredReply := Reply(Num(500), MessageBody(PayloadRequired))
  /** The reply when anything inside the envelope throws. */
  const InternalErrorReply := Reply(Num(500), Obj(map["message" := Str(InternalError), "status" := Num(500)]))

  /** `req?.headers.authorization`, with no request read as no header. */
  function HeaderOf(req: Request?): Option<string>
  {
    if req == null then None else req.authorization
  }

  /** Neither `message` nor `data` is truthy. */
  predicate Malformed(args: map<string, Value>)
  {
    !Truthy(Get(args, "message")) && !Truthy(Get(args, "data"))
  }

  /** The status that goes out: the caller's when truthy, 200 otherwise. */
  function EffectiveStatus(args: map<string, Value>): Value
  {
    var status := Get(args, "status");
    if Truthy(status) then status else Num(200)
  }

  /** The header is present, non-empty and not the literal text "undefined". */
  predicate CarriesToken(authorization: Option<string>)
  {
    authorization.Some? && authorization.value != "" && authorization.value != "undefined"
  }

  /** `delete decoded?.iat; delete decoded?.exp`: an object loses its issued-at
      and expiry claims and keeps every other claim; any other value is left
      as it is. */
  function StripTimestamps(v: Value): (r: Value)
    ensures r.Obj? <==> v.Obj?
    ensures !v.Obj? ==> r == v
    ensures r.Obj? ==> r.props.Keys == v.props.Keys - {"iat", "exp"}
    ensures r.Obj? ==> forall k :: k in r.props ==> r.props[k] == v.props[k]
  {
    match v
    case Obj(claims) => Obj(claims - {"iat", "exp"})
    case _ => v
  }

  /** The `token` field: Ok(Null) when nothing is minted, Ok(Str(t)) for a
      minted token t, Thrown when decode or sign throws. */
  function RollingToken(authorization: Option<string>,
                        decode: Option<string> -> Outcome<Value>,
                        sign: (Value, string) -> Outcome<string>): (r: Outcome<Value>)
    ensures r.Ok? ==> r.value == Null || r.value.Str?
    ensures r.Ok? && r.value.Str? ==> CarriesToken(authorization)
    ensures r.Thrown? ==> CarriesToken(authorization)
  {
    if !CarriesToken(authorization) then Ok(Null)
    else
      match decode(SecondPiece(authorization.value, ' '))
      case Thrown => Thrown
      case Ok(decoded) =>
        var claims := StripTimestamps(decoded);
        if !Truthy(claims) then Ok(Null)
        else
          match sign(claims, RefreshExpiry)
          case Thrown => Thrown
          case Ok(t) => Ok(Str(t))
  }

  /** `{ ...obj, token }` where obj is `{ data, message, status, id }` with the
      status defaulted. */
  function EnvelopeBody(args: map<string, Value>, token: Value): map<string, Value>
  {
    map["data" := Get(args, "data"), "message" := Get(args, "message"),
        "status" := EffectiveStatus(args), "id" := Get(args, "id"), "token" := token]
  }

  /** The reply `sendResponse` writes for the request header `authorization`
      and the handler's argument object `args`. */
  function Envelope(authorization: Option<string>, args: map<string, Value>,
                    decode: Option<string> -> Outcome<Value>,
                    sign: (Value, string) -> Outcome<string>): (r: Reply)
    ensures r == PayloadRequiredReply <==> Malformed(args)
    ensures r == PayloadRequiredReply || r == InternalErrorReply ||
      (r.body.Obj? && r.body.props.Keys == EnvelopeKeys && r.body.props["status"] == r.code)
  {
    if Malformed(args) then PayloadRequiredReply
    else
      match RollingToken(authorization, decode, sign)
      case Thrown =>
        assert "status" !in PayloadRequiredReply.body.props;
        InternalErrorReply
      case Ok(token) =>
        assert "data" !in PayloadRequiredReply.body.props;
        Reply(EffectiveStatus(args), Obj(EnvelopeBody(args, token)))
  }

  /** Lines 13-25 of `sendResponse`, step by step: read the header, decode
      `split(" ")[1]` of it, delete the timestamps of the decoded claims in
      place and re-sign what is left. Thrown stands for the exception that
      reaches the `catch`. */
  method RefreshToken(authorization: Option<string>,
                      decode: Option<string> -> Outcome<Value>,
                      sign: (Value, string) -> Outcome<string>)
    returns (token: Outcome<Value>)
    ensures token == RollingToken(authorization, decode, sign)
  {
    token := Ok(Null);
    if authorization.Some? && authorization.value != "" && authorization.value != "undefined" {
      var t := Element(Split(authorization.value, ' '), 1);
      var decodedOutcome := decode(t);
      if decodedOutcome.Thrown? {
        return Thrown;
      }
      var decoded := decodedOutcome.value;
      if decoded.Obj? {
        var claims := new JsObject(decoded.props);
        claims.Delete("iat");
        claims.Delete("exp");
        decoded := Obj(claims.props);
      }
      assert decoded == StripTimestamps(decodedOutcome.value);
      if Truthy(decoded) {
        var signed := sign(decoded, RefreshExpiry);
        if signed.Thrown? {
          return Thrown;
        }
        token := Ok(Str(signed.value));
      }
    }
  }

  /** `sendResponse(req, res, args)`, step by step: build `obj`, default its
      status in place, reject a call without message and data, then mint the
      rolling token and spread `obj` into the body with it. */
  method SendResponse(req: Request?, args: map<string, Value>,
                      decode: Option<string> -> Outcome<Value>,
                      sign: (Value, string) -> Outcome<string>)
    returns (reply: Reply)
    ensures reply == Envelope(HeaderOf(req), args, decode, sign)
  {
    var data, message, status, id := Get(args, "data"), Get(args, "message"), Get(args, "status"), Get(args, "id");
    var obj := new JsObject(map["data" := data, "message" := message, "status" := status, "id" := id]);
    if !Truthy(status) {
      obj.Set("status", Num(200));
    }
    if !Truthy(message) && !Truthy(data) {
      return PayloadRequiredReply;
    }
    var authorization := if req == null then None else req.authorization;
    var minted := RefreshToken(authorization, decode, sign);
    if minted.Thrown? {
      return InternalErrorReply;
    }
    var token := minted.value;
    assert obj.props == map["data" := data, "message" := message, "status" := EffectiveStatus(args), "id" := id];
    assert obj.props["token" := token] == EnvelopeBody(args, token);
    reply := Reply(obj.props["status"], Obj(obj.props["token" := token]));
    assert Envelope(HeaderOf(req), args, decode, sign) == reply by {
      assert !Malformed(args) && RollingToken(HeaderOf(req), decode, sign) == Ok(token);
    }
  }

  /** A delivered envelope: the status is the caller's when truthy and 200
      otherwise, the body's `status` equals the HTTP status, `data`, `message`
      and `id` are passed through, and the body has exactly the five envelope
      keys. */
  lemma DeliveredEnvelope(authorization: Option<string>, args: map<string, Value>,
                          decode: Option<string> -> Outcome<Value>,
                          sign: (Value, string) -> Outcome<string>)
    requires !Malformed(args)
    requires RollingToken(authorization, decode, sign).Ok?
    ensures var r := Envelope(authorization, args, decode, sign);
      r.body.Obj? && r.body.props.Keys == EnvelopeKeys &&
      r.body.props["status"] == r.code && Truthy(r.code) &&
      (Truthy(Get(args, "status")) ==> r.code == Get(args, "status")) &&
      (!Truthy(Get(args, "status")) ==> r.code == Num(200)) &&
      r.body.props["data"] == Get(args, "data") &&
      r.body.props["message"] == Get(args, "message") &&
      r.body.props["id"] == Get(args, "id") &&
      r.body.props["token"] == RollingToken(authorization, decode, sign).value
  {
  }

  /** Without a truthy message or data the reply is 500 "Data/Message is
      required", whatever status, header, decode or sign (one half of
      `Envelope`'s first postcondition, restated for a caller), and that body
      carries no token. */
  lemma PayloadRequiredOverrides(authorization: Option<string>, args: map<string, Value>,
                                 decode: Option<string> -> Outcome<Value>,
                                 sign: (Value, string) -> Outcome<string>)
    requires Malformed(args)
    ensures Envelope(authorization, args, decode, sign) == PayloadRequiredReply
    ensures PayloadRequiredReply.body.props.Keys == {"message"}
  {
  }

  /** Whatever the handler passes, the body never holds a key outside the
      envelope's five. The last postcondition is the consequence a handler
      cares about: an argument such as `error` is never echoed. */
  lemma ExtraArgumentsDropped(authorization: Option<string>, args: map<string, Value>,
                              decode: Option<string> -> Outcome<Value>,
                              sign: (Value, string) -> Outcome<string>)
    ensures Envelope(authorization, args, decode, sign).body.Obj?
    ensures Envelope(authorization, args, decode, sign).body.props.Keys <= EnvelopeKeys
    ensures forall k :: k in args && k !in EnvelopeKeys ==>
      k !in Envelope(authorization, args, decode, sign).body.props
  {
  }

  /** On the wire (after `JSON.stringify` drops undefined members) a
      delivered body always carries `status` and `token`, and carries `data`,
      `message` and `id` exactly when the handler supplied them. */
  lemma DeliveredWireShape(authorization: Option<string>, args: map<string, Value>,
                           decode: Option<string> -> Outcome<Value>,
                           sign: (Value, string) -> Outcome<string>)
    requires !Malformed(args)
    requires RollingToken(authorization, decode, sign).Ok?
    ensures var wire := JsonMembers(Envelope(authorization, args, decode, sign).body.props);
      "status" in wire && "token" in wire && wire.Keys <= EnvelopeKeys &&
      forall k :: k in {"data", "message", "id"} ==> (k in wire <==> Get(args, k) != Undefined)
  {
    var token := RollingToken(authorization, decode, sign).value;
    assert token == Null || token.Str?;
    DeliveredEnvelope(authorization, args, decode, sign);
  }

  /** No request, no header, an empty header or the text "undefined": the
      token is null, and neither decode nor sign has any say in the reply. */
  lemma NoHeaderNoToken(authorization: Option<string>, args: map<string, Value>,
                        decode: Option<string> -> Outcome<Value>,
                        sign: (Value, string) -> Outcome<string>,
                        decode': Option<string> -> Outcome<Value>,
                        sign': (Value, string) -> Outcome<string>)
    requires !CarriesToken(authorization)
    ensures RollingToken(authorization, decode, sign) == Ok(Null)
    ensures Envelope(authorization, args, decode, sign) == Envelope(authorization, args, decode', sign')
  {
  }

  /** What decode is handed is `header.split(" ")[1]` and nothing else: two
      decoders that agree on that one argument give the same reply. */
  lemma DecodeSeesSecondPiece(h: string, args: map<string, Value>,
                              decode: Option<string> -> Outcome<Value>,
                              decode': Option<string> -> Outcome<Value>,
                              sign: (Value, string) -> Outcome<string>)
    requires decode(SecondPiece(h, ' ')) == decode'(SecondPiece(h, ' '))
    ensures Envelope(Some(h), args, decode, sign) == Envelope(Some(h), args, decode', sign)
  {
  }

  /** A token that decodes to nothing truthy (not a JWT, say) mints no token
      and does not disturb the reply. */
  lemma UndecodableTokenIgnored(h: string, args: map<string, Value>,
                                decode: Option<string> -> Outcome<Value>,
                                sign: (Value, string) -> Outcome<string>)
    requires !Malformed(args)
    requires decode(SecondPiece(h, ' ')).Ok?
    requires !Truthy(StripTimestamps(decode(SecondPiece(h, ' ')).value))
    ensures Envelope(Some(h), args, decode, sign) == Reply(EffectiveStatus(args), Obj(EnvelopeBody(args, Null)))
  {
  }

  /** Decoded claims are re-signed with `iat` and `exp` removed, every other
      claim unchanged, and a ten-minute expiry; the signed token becomes the
      body's `token`. */
  lemma RefreshSignsStrippedClaims(h: string, claims: map<string, Value>, args: map<string, Value>,
                                   decode: Option<string> -> Outcome<Value>,
                                   sign: (Value, string) -> Outcome<string>)
    requires CarriesToken(Some(h))
    requires decode(SecondPiece(h, ' ')) == Ok(Obj(claims))
    ensures sign(Obj(claims - {"iat", "exp"}), "10m").Ok? ==>
      RollingToken(Some(h), decode, sign) == Ok(Str(sign(Obj(claims - {"iat", "exp"}), "10m").value))
    ensures sign(Obj(claims - {"iat", "exp"}), "10m").Thrown? ==>
      RollingToken(Some(h), decode, sign) == Thrown
  {
  }

  /** Exactly when decode or sign throws, a well-formed call gets the fixed
      500 "Internal Server Error" body. */
  lemma ThrowGivesInternalError(authorization: Option<string>, args: map<string, Value>,
                                decode: Option<string> -> Outcome<Value>,
                                sign: (Value, string) -> Outcome<string>)
    requires !Malformed(args)
    ensures RollingToken(authorization, decode, sign) == Thrown <==>
      CarriesToken(authorization) &&
      var decoded := decode(SecondPiece(authorization.value, ' '));
      (decoded.Thrown? ||
       (Truthy(StripTimestamps(decoded.value)) && sign(StripTimestamps(decoded.value), RefreshExpiry).Thrown?))
    ensures RollingToken(authorization, decode, sign) == Thrown ==>
      Envelope(authorization, args, decode, sign) == InternalErrorReply
  {
  }

  /** `{ message: "ok" }` with no status and no request goes out as 200. */
  lemma MessageWithoutStatusIs200(decode: Option<string> -> Outcome<Value>,
                                  sign: (Value, string) -> Outcome<string>)
    ensures Envelope(HeaderOf(null), map["message" := Str("ok")], decode, sign).code == Num(200)
  {
  }

  /** A client that presents the refreshed token as "Bearer <t>" on its next
      request has exactly the same claims re-signed, for as long as it keeps
      coming back: the timestamps of the presented token never limit the
      session. The hypotheses on `t` are what the token library promises of a
      token it signed: it holds no space, and decoding it gives back the
      signed claims plus new timestamps. The second request may sign with a
      different `sign'` (a later clock). */
  lemma {:induction false} RefreshedTokenResignsSameClaims(
      h: string, claims: map<string, Value>, t: string,
      decode: Option<string> -> Outcome<Value>,
      sign: (Value, string) -> Outcome<string>,
      sign': (Value, string) -> Outcome<string>)
    requires CarriesToken(Some(h))
    requires decode(SecondPiece(h, ' ')).Ok?
    requires StripTimestamps(decode(SecondPiece(h, ' ')).value) == Obj(claims)
    requires sign(Obj(claims), RefreshExpiry) == Ok(t)
    requires ' ' !in t
    requires decode(Some(t)).Ok? && StripTimestamps(decode(Some(t)).value) == Obj(claims)
    ensures RollingToken(Some(h), decode, sign) == Ok(Str(t))
    ensures RollingToken(Some("Bearer " + t), decode, sign') ==
      match sign'(Obj(claims), RefreshExpiry)
      case Ok(t') => Ok(Str(t'))
      case Thrown => Thrown
  {
    assert "Bearer " + t == "Bearer" + [' '] + t;
    SecondPieceOfTwoWords("Bearer", t, ' ');
  }
}

/** The `authenticateJWT` middleware: a bearer-token gate in the style of
    section 2.1 of RFC 6750. A request whose Authorization header does not
    start with "Bearer " is refused with 401; otherwise the token is verified,
    and a token that fails verification is refused with 403, while one that
    passes has its claims attached as `req.user` before `next()` runs.
    `verify(t)` stands for `jwt.verify(t, secret)`; its argument may be
    `undefined` (None), and it may throw. */
module Auth {
  import opened Js
  import opened Strings
  import opened Http

  const BearerPrefix := "Bearer "
  const MissingToken := "Access token missing or invalid"
  const InvalidToken := "Invalid or expired token"

  /** The three outcomes of the gate. */
  datatype Decision = Unauthorized | Forbidden | Admitted(claims: Value)

  /** The token of a bearer header, read directly: the longest run of text
      without a space that follows the prefix. */
  function BearerToken(h: string): (t: string)
    requires StartsWith(h, BearerPrefix)
    ensures ' ' !in t
    ensures StartsWith(h[|BearerPrefix|..], t)
    ensures |BearerPrefix| + |t| == |h| || h[|BearerPrefix| + |t|] == ' '
  {
    var rest := h[|BearerPrefix|..];
    rest[..IndexOf(rest, ' ')]
  }

  /** For a header that passes the prefix check, `split(" ")[1]` is defined
      and is exactly the bearer token. */
  lemma BearerTokenIsSecondPiece(h: string)
    requires StartsWith(h, BearerPrefix)
    ensures SecondPiece(h, ' ') == Some(BearerToken(h))
  {
    assert h[..7] == BearerPrefix;
    assert forall j :: 0 <= j < 6 ==> h[j] == BearerPrefix[j] && h[j] != ' ';
    assert h[6] == ' ';
    assert IndexOf(h, ' ') == 6;
    SecondPieceFacts(h, ' ');
  }

  /** What `authenticateJWT` decides for a header. Refused with 401 exactly
      when the header is missing or lacks the case-sensitive prefix "Bearer "
      (an empty header, falsy in JavaScript, lacks it too); otherwise the
      bearer token is verified, and the outcome is 403 exactly when
      verification throws, and admission with the verified claims otherwise. */
  function Gate(authorization: Option<string>, verify: Option<string> -> Outcome<Value>): (d: Decision)
    ensures d.Unauthorized? <==> authorization.None? || !StartsWith(authorization.value, BearerPrefix)
    ensures !d.Unauthorized? ==>
      var verified := verify(Some(BearerToken(authorization.value)));
      (d.Forbidden? <==> verified.Thrown?) &&
      (d.Admitted? ==> verified == Ok(d.claims))
  {
    if authorization.None? || !StartsWith(authorization.value, BearerPrefix) then Unauthorized
    else
      BearerTokenIsSecondPiece(authorization.value);
      match verify(SecondPiece(authorization.value, ' '))
      case Thrown => Forbidden
      case Ok(claims) => Admitted(claims)
  }

  /** `authenticateJWT(req, res, next)`. Exactly one effect happens: one reply
      is written, or `next` is called once. A refusal leaves `req.user`
      alone and writes 401 "Access token missing or invalid" or 403 "Invalid
      or expired token"; an admission sets it to the verified claims and
      writes nothing. */
  method AuthenticateJWT(req: Request, res: ResponseSink, next: NextCallback,
                         verify: Option<string> -> Outcome<Value>)
    modifies req, res, next
    ensures |res.sent| + next.calls == old(|res.sent|) + old(next.calls) + 1
    ensures match Gate(req.authorization, verify)
      case Admitted(claims) =>
        req.user == claims && next.calls == old(next.calls) + 1 && res.sent == old(res.sent)
      case Unauthorized =>
        res.sent == old(res.sent) + [Reply(Num(401), Obj(map["message" := Str(MissingToken)]))] &&
        next.calls == old(next.calls) && req.user == old(req.user)
      case Forbidden =>
        res.sent == old(res.sent) + [Reply(Num(403), Obj(map["message" := Str(InvalidToken)]))] &&
        next.calls == old(next.calls) && req.user == old(req.user)
  {
    var authHeader := req.authorization;
    if authHeader.None? || !StartsWith(authHeader.value, BearerPrefix) {
      res.Send(Reply(Num(401), MessageBody(MissingToken)));
      return;
    }
    var token := Element(Split(authHeader.value, ' '), 1);
    var verified := verify(token);
    match verified
    case Thrown =>
      res.Send(Reply(Num(403), MessageBody(InvalidToken)));
    case Ok(decoded) =>
      req.user := decoded;
      next.Call();
  }

  /** The header a client builds from a token `t` without spaces passes the
      prefix check and hands exactly `t` to verify: the gate reads back what
      the header was made from. */
  lemma BearerHeaderRoundTrip(t: string, verify: Option<string> -> Outcome<Value>)
    requires ' ' !in t
    ensures StartsWith(BearerPrefix + t, BearerPrefix)
    ensures BearerToken(BearerPrefix + t) == t
    ensures Gate(Some(BearerPrefix + t), verify) ==
      match verify(Some(t)) case Thrown => Forbidden case Ok(c) => Admitted(c)
  {
  }

  /** Verification is never reached without the prefix: two verifiers give
      the same decision on such a header. */
  lemma NoPrefixNoVerify(h: string, verify: Option<string> -> Outcome<Value>,
                         verify': Option<string> -> Outcome<Value>)
    requires !StartsWith(h, BearerPrefix)
    ensures Gate(Some(h), verify) == Unauthorized == Gate(Some(h), verify')
  {
  }

  /** The prefix is case-sensitive and includes its space. */
  lemma PrefixIsExact(verify: Option<string> -> Outcome<Value>)
    ensures Gate(Some("bearer abc"), verify) == Unauthorized
    ensures Gate(Some("BEARER abc"), verify) == Unauthorized
    ensures Gate(Some("Bearer"), verify) == Unauthorized
    ensures Gate(Some("Bearerabc"), verify) == Unauthorized
    ensures Gate(None, verify) == Unauthorized
  {
    assert "bearer abc"[..7] != BearerPrefix by { assert "bearer abc"[0] != BearerPrefix[0]; }
    assert "BEARER abc"[..7] != BearerPrefix by { assert "BEARER abc"[1] != BearerPrefix[1]; }
    assert "Bearerabc"[..7] != BearerPrefix by { assert "Bearerabc"[6] != BearerPrefix[6]; }
  }

  /** Two spaces after "Bearer" hand verify the empty string. */
  lemma DoubleSpaceVerifiesEmptyToken(verify: Option<string> -> Outcome<Value>)
    ensures StartsWith("Bearer  x", BearerPrefix)
    ensures BearerToken("Bearer  x") == ""
    ensures Gate(Some("Bearer  x"), verify) ==
      match verify(Some("")) case Thrown => Forbidden case Ok(c) => Admitted(c)
  {
  }
}

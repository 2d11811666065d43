/** The authentication middleware that guards the private routes. It reads
    the `x-auth-token` header; without one it answers 401; otherwise it asks
    `jwt.verify` for the token's payload, stores the payload's `user` claim in
    `req.user` and calls `next()`, or answers 401 when verification throws.
    What it does is recorded as a sequence of effects, in the order it does
    them. */
module AuthGate {
  import opened Js
  import opened Http
  import opened Models

  datatype Effect =
    | CallVerify(token: string)        // jwt.verify(token, jwtSecret)
    | SetUser(claim: Claim)            // req.user = decoded.user
    | CallNext                         // next()
    | Respond(status: int, body: Body) // res.status(status).json(body)

  /** The number of times `e` calls `next()`. */
  function NextCalls(e: seq<Effect>): nat {
    if |e| == 0 then 0 else (if e[0] == CallNext then 1 else 0) + NextCalls(e[1..])
  }

  /** The number of responses `e` sends. */
  function ResponsesSent(e: seq<Effect>): nat {
    if |e| == 0 then 0 else (if e[0].Respond? then 1 else 0) + ResponsesSent(e[1..])
  }

  /** `!token`: the header is missing or empty. */
  predicate NoToken(header: Option<string>) {
    header.None? || header.value == ""
  }

  /** The effects of the gate on a request whose `x-auth-token` header is
      `header`; `verify(t)` is the payload `jwt.verify` decodes from `t`, or
      None when it throws. Every request gets exactly one of "call next" or
      "respond 401"; without a token `verify` and `next` are never called; a
      token that verifies sets `req.user` to its claim and then calls `next`
      once; a token that does not verify is answered 401. */
  function GateEffects(header: Option<string>, verify: string -> Option<Payload>): (effects: seq<Effect>)
    ensures NextCalls(effects) + ResponsesSent(effects) == 1
    ensures NoToken(header) ==>
              effects == [Respond(401, MessageBody("No token, authorization denied"))] &&
              forall i :: 0 <= i < |effects| ==> !effects[i].CallVerify? && effects[i] != CallNext
    ensures !NoToken(header) ==> |effects| >= 1 && effects[0] == CallVerify(header.value)
    ensures !NoToken(header) && verify(header.value).Some? ==>
              effects[1..] == [SetUser(verify(header.value).value.user), CallNext]
    ensures !NoToken(header) && verify(header.value).None? ==>
              effects[1..] == [Respond(401, MessageBody("Token is not vallid"))]
  {
    if NoToken(header) then
      var e := [Respond(401, MessageBody("No token, authorization denied"))];
      assert e[1..] == [];
      e
    else
      var token := header.value;
      match verify(token)
      case Some(decoded) =>
        var e := [CallVerify(token), SetUser(decoded.user), CallNext];
        assert e[1..] == [SetUser(decoded.user), CallNext] && e[1..][1..] == [CallNext] && [CallNext][1..] == [];
        assert NextCalls([CallNext]) == 1 + NextCalls([]) && ResponsesSent([CallNext]) == ResponsesSent([]);
        assert NextCalls(e[1..]) == NextCalls([CallNext]) && ResponsesSent(e[1..]) == ResponsesSent([CallNext]);
        e
      case None =>
        var reply := Respond(401, MessageBody("Token is not vallid"));
        var e := [CallVerify(token), reply];
        assert e[1..] == [reply] && [reply][1..] == [];
        assert NextCalls([reply]) == NextCalls([]) && ResponsesSent([reply]) == 1 + ResponsesSent([]);
        e
  }

  /** The request as the gate sees it: its `x-auth-token` header and the
      `user` field the gate sets. */
  class Request {
    const token: Option<string>
    var user: Option<Claim>

    constructor (token: Option<string>)
      ensures this.token == token && user.None?
    {
      this.token := token;
      user := None;
    }
  }

  /** The middleware: it writes `req.user` only when the token verifies, and
      then with the token's claim. */
  method Authenticate(req: Request, verify: string -> Option<Payload>) returns (effects: seq<Effect>)
    modifies req
    ensures effects == GateEffects(req.token, verify)
    ensures !NoToken(req.token) && verify(req.token.value).Some? ==>
              req.user == Some(verify(req.token.value).value.user)
    ensures NoToken(req.token) || verify(req.token.value).None? ==> req.user == old(req.user)
  {
    var token := req.token;
    if token.None? || token.value == "" {
      effects := [Respond(401, MessageBody("No token, authorization denied"))];
      return;
    }
    effects := [CallVerify(token.value)];
    var decoded := verify(token.value);
    if decoded.Some? {
      req.user := Some(decoded.value.user);
      effects := effects + [SetUser(decoded.value.user)];
      effects := effects + [CallNext];
    } else {
      effects := effects + [Respond(401, MessageBody("Token is not vallid"))];
    }
  }
}

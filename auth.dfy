/**
 * The bearer-token gate on protected routes: header present, then exactly
 * "Bearer <token>" split on single spaces, then token verification, then the
 * claims are attached to the request. Every exit that does not call next()
 * answers 401.
 */
module Auth {
  import opened Wrappers
  import opened JsString
  import opened Api

  /** What `verifyToken` returns; it catches every library error itself and never throws. */
  datatype Verification = Valid(decoded: Claims) | Invalid(reason: string)

  const MissingHeader := "Authorization header missing"
  const BadFormat := "Invalid authorization format. Use: Bearer <token>"
  const BadToken := "Invalid or expired token"
  const AuthFailed := "Authentication failed"

  /** The gate's verdict: let the request through with these claims, or answer. */
  datatype Decision = Pass(claims: Claims) | Reject(reply: Reply)

  /**
   * The decision `authMiddleware` takes, in the order it takes it. It fails
   * closed: a request passes only with a bearer header whose token verifies,
   * carrying the claims verification returned, and every other answer is a
   * 401 error.
   */
  function Authenticate(h: Header, verifyToken: string -> Verification): (d: Decision)
    ensures d.Pass? <==> h.Text? && IsBearerHeader(h.value) && verifyToken(h.value[7..]).Valid?
    ensures d.Pass? ==> d.claims == verifyToken(h.value[7..]).decoded
    ensures d.Reject? ==> d.reply.status == 401 && d.reply.body.error && d.reply.body.data.None?
  {
    match h
    case Absent => Reject(Failure(401, MissingHeader))
    // `split` is not a function of a non-string: the TypeError lands in the catch block
    case NonText => Reject(Failure(401, AuthFailed))
    case Text(s) =>
      if s == [] then Reject(Failure(401, MissingHeader))
      else
        BearerShape(s);
        var parts := Split(s, ' ');
        if |parts| != 2 || parts[0] != "Bearer" then Reject(Failure(401, BadFormat))
        else
          match verifyToken(parts[1])
          case Invalid(_) => Reject(Failure(401, BadToken))
          case Valid(claims) => Pass(claims)
  }

  /** The well-formed header, stated without split: "Bearer", one space, a token without spaces. */
  predicate IsBearerHeader(s: string) {
    |s| >= 7 && s[..7] == "Bearer " && ' ' !in s[7..]
  }

  /** The header passes the format check exactly when it is a bearer header, and the token is what follows the space. */
  lemma BearerShape(s: string)
    ensures (|Split(s, ' ')| == 2 && Split(s, ' ')[0] == "Bearer") <==> IsBearerHeader(s)
    ensures IsBearerHeader(s) ==> Split(s, ' ') == ["Bearer", s[7..]]
  {
    var parts := Split(s, ' ');
    if |parts| == 2 && parts[0] == "Bearer" {
      JoinSplit(s, ' ');
      assert Join(parts[1..], ' ') == parts[1];
      assert s == "Bearer" + [' '] + parts[1];
      assert s[7..] == parts[1];
    }
    if IsBearerHeader(s) {
      assert s == "Bearer" + [' '] + s[7..];
      SplitCons("Bearer", s[7..], ' ');
      SplitFree(s[7..], ' ');
    }
  }

  /** The gate against a definition that does not mention split. */
  lemma AuthenticateCases(h: Header, verifyToken: string -> Verification)
    ensures Authenticate(h, verifyToken) ==
      if h.Absent? || h == Text([]) then Reject(Failure(401, MissingHeader))
      else if h.NonText? then Reject(Failure(401, AuthFailed))
      else if !IsBearerHeader(h.value) then Reject(Failure(401, BadFormat))
      else if verifyToken(h.value[7..]).Invalid? then Reject(Failure(401, BadToken))
      else Pass(verifyToken(h.value[7..]).decoded)
  {
    if h.Text? {
      BearerShape(h.value);
    }
  }

  /** The scheme is case-sensitive and the separator is one space. */
  lemma MalformedExamples(verifyToken: string -> Verification)
    ensures Authenticate(Text("bearer t"), verifyToken) == Reject(Failure(401, BadFormat))
    ensures Authenticate(Text("Bearer  t"), verifyToken) == Reject(Failure(401, BadFormat))
    ensures Authenticate(Text("Bearer"), verifyToken) == Reject(Failure(401, BadFormat))
  {
    AuthenticateCases(Text("bearer t"), verifyToken);
    AuthenticateCases(Text("Bearer  t"), verifyToken);
    assert "Bearer  t"[7..] == " t";
    AuthenticateCases(Text("Bearer"), verifyToken);
  }

  /** "Bearer " passes the format check, and the empty string is what gets verified. */
  lemma EmptyTokenIsVerified(verifyToken: string -> Verification)
    ensures Authenticate(Text("Bearer "), verifyToken) ==
      if verifyToken("").Valid? then Pass(verifyToken("").decoded) else Reject(Failure(401, BadToken))
  {
    var h := "Bearer ";
    assert h[..7] == "Bearer " && h[7..] == [];
    assert IsBearerHeader(h);
    AuthenticateCases(Text(h), verifyToken);
  }

  /**
   * `authMiddleware(req, res, next)`: answers, or sets `req.user` to the
   * decoded claims and calls next() once. Nothing else on the request changes.
   */
  method AuthMiddleware(req: Request, verifyToken: string -> Verification) returns (g: Gate)
    modifies req
    ensures Authenticate(req.authorization, verifyToken).Reject? ==>
      g == Stop(Authenticate(req.authorization, verifyToken).reply) && req.user == old(req.user)
    ensures Authenticate(req.authorization, verifyToken).Pass? ==>
      g == Next && req.user == Some(Authenticate(req.authorization, verifyToken).claims)
    ensures req.file == old(req.file)
  {
    var authHeader := req.authorization;
    if authHeader.Absent? || authHeader == Text([]) {
      return Stop(Failure(401, MissingHeader));
    }
    if authHeader.NonText? {
      return Stop(Failure(401, AuthFailed));
    }
    var parts := Split(authHeader.value, ' ');
    if |parts| != 2 || parts[0] != "Bearer" {
      return Stop(Failure(401, BadFormat));
    }
    var token := parts[1];
    var result := verifyToken(token);
    if result.Invalid? {
      return Stop(Failure(401, BadToken));
    }
    req.user := Some(result.decoded);
    g := Next;
  }
}

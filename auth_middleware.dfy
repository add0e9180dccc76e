/**
 * `authenticate` of `server/middleware/authMiddleware.js`: the token is the
 * second piece of the Authorization header split on single spaces; no token
 * gives 401, a token `jwt.verify` rejects gives 403, and otherwise the
 * decoded payload becomes `req.user` and `next` runs.
 */
module AuthMiddleware {
  import opened Base
  import opened Js
  import opened AuthController

  /** `req.headers['authorization']?.split(' ')[1]`: `None` for a missing header or a missing second piece. */
  function ExtractToken(header: Option<string>): (token: Option<string>)
    ensures header.None? ==> token.None?
    ensures token.Some? ==> ' ' !in token.value
    ensures header.Some? ==> (token.Some? <==> ' ' in header.value)
  {
    if header.None? then None
    else
      var pieces := Split(header.value);
      JoinSplit(header.value);
      SpaceSplits(header.value);
      if |pieces| < 2 then None else Some(pieces[1])
  }

  /** A string splits into more than one piece exactly when it holds a space. */
  lemma SpaceSplits(s: string)
    ensures |Split(s)| >= 2 <==> ' ' in s
  {
    JoinSplit(s);
    if ' ' !in s {
      SplitJoin([s]);
    }
  }

  /** The scheme word is not checked: whatever space-free word precedes the token, the token is extracted. */
  lemma AnySchemeAccepted(scheme: string, token: string)
    requires ' ' !in scheme && ' ' !in token
    ensures ExtractToken(Some(scheme + " " + token)) == Some(token)
  {
    assert NoSpaceIn([scheme, token]);
    assert Join([scheme, token]) == scheme + " " + Join([token]);
    SplitJoin([scheme, token]);
  }

  /** `"Bearer "` and a double space both leave an empty second piece, which counts as no token. */
  lemma EmptySecondPiece(scheme: string, rest: string)
    requires ' ' !in scheme
    ensures ExtractToken(Some(scheme + " ")) == Some("")
    ensures ExtractToken(Some(scheme + "  " + rest)) == Some("")
  {
    AnySchemeAccepted(scheme, "");
    assert scheme + " " + "" == scheme + " ";
    var tail := "  " + rest;
    assert tail[0] == ' ' && tail[1..] == " " + rest;
    assert (" " + rest)[0] == ' ' && (" " + rest)[1..] == rest;
    assert Split(tail) == [""] + ([""] + Split(rest));
    SplitAfterWord(scheme, tail);
    assert scheme + "  " + rest == scheme + tail;
  }

  /** What `authenticate` does with a request. */
  datatype Decision = Refuse(status: int, message: string) | Next(user: Claims)

  const NoToken := Refuse(401, "No token provided")
  const BadToken := Refuse(403, "Invalid token")

  /** The 401/403/next decision, with `jwt.verify` as `verify` (`None` where it throws). */
  function Decide(header: Option<string>, verify: string -> Option<Claims>): (d: Decision)
    ensures d == NoToken <==> ExtractToken(header).None? || ExtractToken(header).value == ""
    ensures d == BadToken <==> ExtractToken(header).Some? && ExtractToken(header).value != "" && verify(ExtractToken(header).value).None?
    ensures d.Next? <==> d != NoToken && d != BadToken
    ensures d.Next? ==> Some(d.user) == verify(ExtractToken(header).value)
  {
    var token := ExtractToken(header);
    if token.None? || token.value == "" then NoToken
    else
      match verify(token.value)
      case None => BadToken
      case Some(decoded) => Next(decoded)
  }

  /** The part of an Express request the middleware reads and writes. */
  class Request {
    const authorization: Option<string>
    var user: Option<Claims>

    constructor (authorization: Option<string>)
      ensures this.authorization == authorization && user.None?
    {
      this.authorization := authorization;
      user := None;
    }
  }

  /**
   * `authenticate`: refuses with 401 or 403 and leaves `req.user` alone, or
   * sets `req.user` to the decoded payload and proceeds to `next` once (a
   * `Next` result).
   */
  method Authenticate(req: Request, verify: string -> Option<Claims>) returns (d: Decision)
    modifies req
    ensures d == Decide(req.authorization, verify)
    ensures d.Refuse? ==> req.user == old(req.user)
    ensures d.Next? ==> req.user == Some(d.user)
  {
    var token := ExtractToken(req.authorization);
    if token.None? || token.value == "" {
      return NoToken;
    }
    var decoded := verify(token.value);
    if decoded.None? {
      return BadToken;
    }
    req.user := decoded;
    d := Next(decoded.value);
  }
}

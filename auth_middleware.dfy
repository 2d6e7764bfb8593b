/** `authenticateToken` of server/src/middlewares/auth.middleware.ts: the
    bearer token is the second space-separated field of the Authorization
    header; a missing header or field answers 401, a token the verifier
    rejects answers 403, and otherwise the request gets the payload's user
    id and `next` is called. */
module AuthMiddleware {

  import opened Common

  const MissingTokenError := "Accès refusé, Token manquant"
  const BadFormatError := "Accès refusé, format de token invalide"
  const InvalidTokenError := "Token invalide ou expiré"

  /** `s.split(sep)` with a one-character separator: every occurrence cuts,
      so neighbouring separators give empty fields. */
  function Split(s: string, sep: char): (r: seq<string>)
    ensures |r| >= 1
    ensures forall i :: 0 <= i < |r| ==> sep !in r[i]
  {
    if s == [] then [""]
    else if s[0] == sep then [""] + Split(s[1..], sep)
    else
      var rest := Split(s[1..], sep);
      [[s[0]] + rest[0]] + rest[1..]
  }

  /** `parts.join(sep)`. */
  function Join(parts: seq<string>, sep: char): string
  {
    if |parts| == 0 then ""
    else if |parts| == 1 then parts[0]
    else parts[0] + [sep] + Join(parts[1..], sep)
  }

  /** Splitting loses nothing: joining the fields back gives the text. */
  lemma {:induction false} JoinSplit(s: string, sep: char)
    ensures Join(Split(s, sep), sep) == s
  {
    if s != [] {
      JoinSplit(s[1..], sep);
      var rest := Split(s[1..], sep);
      if s[0] == sep {
        assert Split(s, sep) == [""] + rest;
        assert (([""] + rest)[1..]) == rest;
      } else {
        var r := Split(s, sep);
        assert r[1..] == rest[1..];
        if |rest| > 1 {
          assert rest == [rest[0]] + rest[1..];
        }
      }
    }
  }

  /** Joining fields that hold no separator and splitting again gives the
      same fields. */
  lemma {:induction false} SplitJoin(parts: seq<string>, sep: char)
    requires |parts| >= 1
    requires forall i :: 0 <= i < |parts| ==> sep !in parts[i]
    ensures Split(Join(parts, sep), sep) == parts
  {
    if |parts| == 1 {
      SplitNoSeparator(parts[0], sep);
    } else {
      SplitJoin(parts[1..], sep);
      SplitPrefix(parts[0], Join(parts[1..], sep), sep);
      assert parts == [parts[0]] + parts[1..];
    }
  }

  /** A text without the separator is a single field. */
  lemma {:induction false} SplitNoSeparator(s: string, sep: char)
    requires sep !in s
    ensures Split(s, sep) == [s]
  {
    if s != [] {
      assert s[0] != sep && sep !in s[1..];
      SplitNoSeparator(s[1..], sep);
      assert s == [s[0]] + s[1..];
    }
  }

  /** A first field without the separator, then the separator: that field,
      then the fields of the rest. */
  lemma {:induction false} SplitPrefix(head: string, tail: string, sep: char)
    requires sep !in head
    ensures Split(head + [sep] + tail, sep) == [head] + Split(tail, sep)
  {
    if head == [] {
      assert head + [sep] + tail == [sep] + tail;
      assert ([sep] + tail)[1..] == tail;
    } else {
      SplitPrefix(head[1..], tail, sep);
      assert (head + [sep] + tail)[1..] == head[1..] + [sep] + tail;
      assert head == [head[0]] + head[1..];
    }
  }

  /** `authHeader.split(' ')[1]`: the second field, if there is one. */
  function Token(header: string): (r: Option<string>)
    ensures r.Some? ==> ' ' !in r.value
  {
    var fields := Split(header, ' ');
    if |fields| >= 2 then Some(fields[1]) else None
  }

  /** For `scheme token extra...` the token is the second field; whatever
      follows is ignored. */
  lemma {:induction false} TokenIsSecondField(scheme: string, token: string, extra: seq<string>)
    requires ' ' !in scheme && ' ' !in token
    requires forall i :: 0 <= i < |extra| ==> ' ' !in extra[i]
    ensures Token(Join([scheme, token] + extra, ' ')) == Some(token)
  {
    var parts := [scheme, token] + extra;
    assert forall i :: 2 <= i < |parts| ==> parts[i] == extra[i - 2];
    SplitJoin(parts, ' ');
    assert Split(Join(parts, ' '), ' ')[1] == token;
  }

  /** A header without a space ("Bearer" alone) has no token. */
  lemma {:induction false} NoSpaceNoToken(header: string)
    requires ' ' !in header
    ensures Token(header) == None
  {
    SplitNoSeparator(header, ' ');
  }

  /** What `jwt.verify` does with a token: throws, or returns a payload
      whose `userId` may be absent. */
  datatype Verification = Rejected | Verified(userId: Option<UserId>)

  /** The middleware's decision: answer the request, or pass it on with
      the user id read from the payload. */
  datatype Decision = Reject(response: Response<()>) | Next(userId: Option<UserId>)

  function Authenticate(authorization: Option<string>, verify: string -> Verification): (d: Decision)
    ensures !Truthy(authorization) ==> d == Reject(Response(401, ErrorBody(MissingTokenError)))
    ensures Truthy(authorization) && !Truthy(Token(authorization.value)) ==>
              d == Reject(Response(401, ErrorBody(BadFormatError)))
    ensures d.Reject? ==> d.response.status in {401, 403}
    ensures d.Reject? && d.response.status == 403 <==>
              Truthy(authorization) && Truthy(Token(authorization.value)) && verify(Token(authorization.value).value).Rejected?
    ensures d.Next? <==>
              Truthy(authorization) && Truthy(Token(authorization.value)) && verify(Token(authorization.value).value).Verified?
    ensures d.Next? ==> d.userId == verify(Token(authorization.value).value).userId
  {
    if !Truthy(authorization) then Reject(Response(401, ErrorBody(MissingTokenError)))
    else
      var token := Token(authorization.value);
      if !Truthy(token) then Reject(Response(401, ErrorBody(BadFormatError)))
      else match verify(token.value)
        case Rejected => Reject(Response(403, ErrorBody(InvalidTokenError)))
        case Verified(userId) => Next(userId)
  }

  /** `Bearer <token>` with a token the verifier accepts passes, with the
      payload's user id. */
  lemma {:induction false} BearerTokenPasses(token: string, verify: string -> Verification)
    requires token != "" && ' ' !in token && verify(token).Verified?
    ensures Authenticate(Some("Bearer " + token), verify) == Next(verify(token).userId)
  {
    assert "Bearer " + token == Join(["Bearer", token] + [], ' ');
    TokenIsSecondField("Bearer", token, []);
  }

  /** The request as the middleware sees it: the header it reads, and what
      it writes (`req.userId`, the response, the calls of `next`). */
  class AuthRequest {
    const authorization: Option<string>
    var userId: Option<UserId>
    var response: Option<Response<()>>
    var nextCalls: nat

    constructor (authorization: Option<string>)
      ensures this.authorization == authorization
      ensures userId.None? && response.None? && nextCalls == 0
    {
      this.authorization := authorization;
      userId := None;
      response := None;
      nextCalls := 0;
    }

    /** `authenticateToken(req, res, next)`: either answers, or sets
        `userId` and calls `next` exactly once. */
    method AuthenticateToken(verify: string -> Verification)
      modifies this
      ensures Authenticate(authorization, verify).Reject? ==>
                && response == Some(Authenticate(authorization, verify).response)
                && userId == old(userId) && nextCalls == old(nextCalls)
      ensures Authenticate(authorization, verify).Next? ==>
                && userId == Authenticate(authorization, verify).userId
                && nextCalls == old(nextCalls) + 1 && response == old(response)
    {
      if !Truthy(authorization) {
        response := Some(Response(401, ErrorBody(MissingTokenError)));
        return;
      }
      var token := Token(authorization.value);
      if !Truthy(token) {
        response := Some(Response(401, ErrorBody(BadFormatError)));
        return;
      }
      var decoded := verify(token.value);
      match decoded {
        case Rejected =>
          response := Some(Response(403, ErrorBody(InvalidTokenError)));
        case Verified(id) =>
          userId := id;
          nextCalls := nextCalls + 1;
      }
    }
  }
}

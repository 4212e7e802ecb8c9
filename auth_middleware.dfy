/** `authenticateToken`: the bearer-token gate in front of the protected routes. */
module AuthMiddleware {
  import opened Common
  import opened Credentials
  import opened Http

  /** JavaScript's `s.split(sep)` for a one-character separator: the (possibly
      empty) pieces between separators, left to right. */
  function Split(s: string, sep: char): (r: seq<string>)
    ensures |r| >= 1
    ensures forall i | 0 <= i < |r| :: sep !in r[i]
    decreases |s|
  {
    if s == [] then [""]
    else if s[0] == sep then [""] + Split(s[1..], sep)
    else
      var rest := Split(s[1..], sep);
      [[s[0]] + rest[0]] + rest[1..]
  }

  /** `pieces.join(sep)`. */
  function Join(pieces: seq<string>, sep: char): string
    requires |pieces| >= 1
  {
    if |pieces| == 1 then pieces[0] else pieces[0] + [sep] + Join(pieces[1..], sep)
  }

  /** Splitting loses nothing: joining the pieces back gives the header. */
  lemma {:induction false} SplitJoin(s: string, sep: char)
    ensures Join(Split(s, sep), sep) == s
    decreases |s|
  {
    if s == [] {
    } else if s[0] == sep {
      SplitJoin(s[1..], sep);
      assert Split(s, sep)[1..] == Split(s[1..], sep);
      assert s == [sep] + s[1..];
    } else {
      SplitJoin(s[1..], sep);
      var rest := Split(s[1..], sep);
      var r := Split(s, sep);
      if |rest| == 1 {
        assert r == [[s[0]] + rest[0]];
        assert s == [s[0]] + s[1..];
      } else {
        assert r[1..] == rest[1..];
        assert Join(r, sep) == [s[0]] + rest[0] + [sep] + Join(rest[1..], sep);
        assert Join(rest, sep) == rest[0] + [sep] + Join(rest[1..], sep);
        assert s == [s[0]] + s[1..];
      }
    }
  }

  /** A string with no separator is one piece, and `a sep b` splits at the first
      separator: the pieces of `a + [sep] + b` are `a` followed by the pieces of `b`. */
  lemma {:induction false} SplitAtFirst(a: string, sep: char, b: string)
    requires sep !in a
    ensures Split(a, sep) == [a]
    ensures Split(a + [sep] + b, sep) == [a] + Split(b, sep)
    decreases |a|
  {
    if a != [] {
      SplitAtFirst(a[1..], sep, b);
      assert (a + [sep] + b)[1..] == a[1..] + [sep] + b;
      assert [a[0]] + a[1..] == a;
    } else {
      assert a + [sep] + b == [sep] + b;
    }
  }

  /** `authHeader && authHeader.split(' ')[1]`: the second space-separated piece. */
  function BearerToken(authorization: Option<string>): Option<string> {
    if authorization.None? || authorization.value == "" then None
    else
      var pieces := Split(authorization.value, ' ');
      if |pieces| < 2 then None else Some(pieces[1])
  }

  /** The token is whatever follows the first space, up to the next one; the
      scheme word in front of it is not checked. */
  lemma BearerTokenOfHeader(scheme: string, token: string)
    requires ' ' !in scheme && ' ' !in token
    ensures BearerToken(Some(scheme + " " + token)) == Some(token)
  {
    SplitAtFirst(scheme, ' ', token);
    SplitAtFirst(token, ' ', "");
    assert scheme + " " + token == scheme + [' '] + token;
  }

  /** A header without a space has no token. */
  lemma NoSpaceNoToken(header: string)
    requires ' ' !in header
    ensures BearerToken(Some(header)) == None
  {
    SplitAtFirst(header, ' ', "");
  }

  /** What the gate decides for a request. */
  datatype Decision = Pass(userId: Id) | Reject(response: Response)

  /** The gate: 401 without a non-empty token, 403 when the token does not verify,
      otherwise the request proceeds as the token's user. */
  function Decide(authorization: Option<string>): (d: Decision)
    ensures d.Reject? ==> d.response.status in {401, 403}
    ensures d.Reject? && d.response.status == 401 <==> !(BearerToken(authorization).Some? && BearerToken(authorization).value != "")
    ensures d.Reject? && d.response.status == 403 <==>
      BearerToken(authorization).Some? && BearerToken(authorization).value != "" && Verify(BearerToken(authorization).value).None?
    ensures d.Pass? ==> Verify(BearerToken(authorization).value) == Some(d.userId)
  {
    var token := BearerToken(authorization);
    if token.None? || token.value == "" then Reject(Response(401, ErrorJson(TokenRequired)))
    else match Verify(token.value)
      case None => Reject(Response(403, ErrorJson(TokenInvalid)))
      case Some(userId) => Pass(userId)
  }

  /** A token the service issued, sent as `Bearer <token>`, passes as its user. */
  lemma IssuedTokenPasses(userId: Id)
    requires ' ' !in userId
    ensures Decide(Some("Bearer " + Sign(userId))) == Pass(userId)
  {
    assert ' ' !in TokenPrefix;
    assert forall i | 0 <= i < |Sign(userId)| :: Sign(userId)[i] != ' ' by {
      forall i | 0 <= i < |Sign(userId)| ensures Sign(userId)[i] != ' ' {
        if i < |TokenPrefix| {
          assert Sign(userId)[i] == TokenPrefix[i];
        } else {
          assert Sign(userId)[i] == userId[i - |TokenPrefix|];
        }
      }
    }
    BearerTokenOfHeader("Bearer", Sign(userId));
    assert "Bearer " + Sign(userId) == "Bearer" + " " + Sign(userId);
    VerifySigned(userId);
  }

  /** The request object as the middleware sees it. */
  class AuthenticatedRequest {
    const authorization: Option<string>
    var userId: Option<Id>

    constructor (authorization: Option<string>)
      ensures this.authorization == authorization && userId == None
    {
      this.authorization := authorization;
      userId := None;
    }
  }

  /** `authenticateToken`: on success sets `req.userId` and calls `next` once;
      otherwise writes the refusal and does not call `next`. */
  method AuthenticateToken(req: AuthenticatedRequest) returns (nextCalls: nat, written: Option<Response>)
    modifies req
    ensures Decide(req.authorization).Pass? ==>
      nextCalls == 1 && written == None && req.userId == Some(Decide(req.authorization).userId)
    ensures Decide(req.authorization).Reject? ==>
      nextCalls == 0 && written == Some(Decide(req.authorization).response) && req.userId == old(req.userId)
  {
    nextCalls := 0;
    written := None;
    var token := BearerToken(req.authorization);
    if token.None? || token.value == "" {
      written := Some(Response(401, ErrorJson(TokenRequired)));
      return;
    }
    var verified := Verify(token.value);
    if verified.None? {
      written := Some(Response(403, ErrorJson(TokenInvalid)));
      return;
    }
    req.userId := Some(verified.value);
    nextCalls := nextCalls + 1;
  }
}

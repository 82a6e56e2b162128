/**
 * `roleMiddleware(roles)` of src/rolemiddleware/roleAuth.js: read the bearer token from the
 * `Authorization` header, verify it, check the payload's role against the allow-list, and
 * on success record the caller on the request and pass it on. Token verification is an
 * abstract function from the token text to its payload, or `None` when `jwt.verify` throws.
 */
module RoleGuard {
  import opened Wrappers
  import opened Http

  /** A token payload: `id` and `role`, each possibly absent (`undefined`). */
  datatype Claims = Claims(id: Option<string>, role: Option<string>)

  // ---------------------------------------------------------------------------
  // `header.split(" ")`
  // ---------------------------------------------------------------------------

  /** JavaScript's `s.split(" ")`: the runs between single spaces, empty runs included. */
  function Split(s: string): (parts: seq<string>)
    ensures |parts| >= 1
    ensures forall k :: 0 <= k < |parts| ==> ' ' !in parts[k]
  {
    if s == [] then [""]
    else if s[0] == ' ' then [""] + Split(s[1..])
    else
      var rest := Split(s[1..]);
      [[s[0]] + rest[0]] + rest[1..]
  }

  /** `parts.join(" ")`. */
  function Join(parts: seq<string>): string
    requires |parts| >= 1
  {
    if |parts| == 1 then parts[0] else parts[0] + " " + Join(parts[1..])
  }

  /** Splitting loses nothing: joining the parts again gives the header back. */
  lemma {:induction false} JoinSplit(s: string)
    ensures Join(Split(s)) == s
  {
    if s != [] {
      JoinSplit(s[1..]);
      var rest := Split(s[1..]);
      if s[0] == ' ' {
        assert Split(s) == [""] + rest;
        assert Split(s)[1..] == rest;
      } else {
        var parts := Split(s);
        assert parts[0] == [s[0]] + rest[0];
        if |rest| > 1 {
          assert parts[1..] == rest[1..];
          assert Join(rest) == rest[0] + " " + Join(rest[1..]);
        }
      }
    }
  }

  /** Splitting a word and a space-free tail at the space gives exactly those two parts. */
  lemma {:induction false} SplitAtSpace(w: string, x: string)
    requires ' ' !in w && ' ' !in x
    ensures Split(w + " " + x) == [w, x]
  {
    if w == [] {
      assert w + " " + x == [' '] + x;
      assert ([' '] + x)[1..] == x;
      NoSpace(x);
    } else {
      assert (w + " " + x)[1..] == w[1..] + " " + x;
      SplitAtSpace(w[1..], x);
      assert [w[0]] + w[1..] == w;
    }
  }

  /** A string without spaces is its own single part. */
  lemma {:induction false} NoSpace(x: string)
    requires ' ' !in x
    ensures Split(x) == [x]
  {
    if x != [] {
      assert ' ' !in x[1..] by {
        forall k | 0 <= k < |x[1..]| ensures x[1..][k] != ' ' {
          assert x[1..][k] == x[k + 1];
        }
      }
      NoSpace(x[1..]);
      assert [x[0]] + x[1..] == x;
    }
  }

  // ---------------------------------------------------------------------------
  // The decision
  // ---------------------------------------------------------------------------

  /**
   * `req.header("Authorization")?.split(" ")[1]`, with `!token` folded in: the second part
   * when the header is present, has one, and it is not empty.
   */
  function BearerToken(header: Option<string>): (t: Option<string>)
    ensures t.Some? <==> header.Some? && |Split(header.value)| >= 2 && Split(header.value)[1] != []
    ensures t.Some? ==> t.value == Split(header.value)[1] && ' ' !in t.value
  {
    if header.None? then None
    else
      var parts := Split(header.value);
      if |parts| >= 2 && parts[1] != [] then Some(parts[1]) else None
  }

  /** `Bearer <token>` yields the token whenever the token is non-empty and has no space. */
  lemma BearerOfToken(x: string)
    requires x != [] && ' ' !in x
    ensures BearerToken(Some("Bearer " + x)) == Some(x)
  {
    SplitAtSpace("Bearer", x);
    assert "Bearer " + x == "Bearer" + " " + x;
  }

  /** The four ways the middleware can end. */
  datatype Decision = NoToken | InvalidToken | NotAllowed | Allow(claims: Claims)

  /** `roles.includes(data.role)`: an absent role is in no list. */
  predicate Includes(roles: seq<string>, role: Option<string>) {
    role.Some? && role.value in roles
  }

  function Decide(roles: seq<string>, header: Option<string>, verify: string -> Option<Claims>): (d: Decision)
    ensures d == NoToken <==> BearerToken(header).None?
    ensures d == InvalidToken <==> BearerToken(header).Some? && verify(BearerToken(header).value).None?
    ensures d == NotAllowed <==>
      && BearerToken(header).Some? && verify(BearerToken(header).value).Some?
      && !Includes(roles, verify(BearerToken(header).value).value.role)
    ensures d.Allow? ==>
      && BearerToken(header).Some?
      && verify(BearerToken(header).value) == Some(d.claims)
      && Includes(roles, d.claims.role)
  {
    var token := BearerToken(header);
    if token.None? then NoToken
    else
      var data := verify(token.value);
      if data.None? then InvalidToken
      else if Includes(roles, data.value.role) then Allow(data.value)
      else NotAllowed
  }

  /** The request as the middleware sees it: the fields it writes, and how often `next` ran. */
  class Request {
    var authorization: Option<string>
    var userId: Option<string>
    var userRole: Option<string>
    var nextCalls: nat

    constructor (authorization: Option<string>)
      ensures this.authorization == authorization
      ensures userId.None? && userRole.None? && nextCalls == 0
    {
      this.authorization := authorization;
      userId := None;
      userRole := None;
      nextCalls := 0;
    }
  }

  const NoTokenMessage: string := "Access denied. No token provided."
  const NotAllowedMessage: string := "Not allowed"
  const InvalidTokenMessage: string := "Invalid token"

  /**
   * The handler `roleMiddleware(roles)` returns. It answers the request itself (`Some`) or
   * records the caller and calls `next` once (`None`).
   */
  method Guard(roles: seq<string>, req: Request, verify: string -> Option<Claims>) returns (answer: Option<Reply<()>>)
    modifies req
    ensures req.authorization == old(req.authorization)
    ensures Decide(roles, old(req.authorization), verify) == NoToken ==>
      answer == Some(Fail(400, NoTokenMessage)) && unchanged(req)
    ensures Decide(roles, old(req.authorization), verify) == InvalidToken ==>
      answer == Some(Fail(401, InvalidTokenMessage)) && unchanged(req)
    ensures Decide(roles, old(req.authorization), verify) == NotAllowed ==>
      answer == Some(Fail(401, NotAllowedMessage)) && unchanged(req)
    ensures Decide(roles, old(req.authorization), verify).Allow? ==>
      var data := Decide(roles, old(req.authorization), verify).claims;
      && answer.None?
      && req.userId == data.id && req.userRole == data.role
      && req.nextCalls == old(req.nextCalls) + 1
  {
    var token := BearerToken(req.authorization);
    if token.None? {
      return Some(Fail(400, NoTokenMessage));
    }
    var data := verify(token.value);
    if data.None? {
      return Some(Fail(401, InvalidTokenMessage));
    }
    if Includes(roles, data.value.role) {
      req.userId := data.value.id;
      req.userRole := data.value.role;
      req.nextCalls := req.nextCalls + 1;
      answer := None;
    } else {
      answer := Some(Fail(401, NotAllowedMessage));
    }
  }

  /** A payload without a role is refused by every list, whatever its id. */
  lemma RolelessTokenRefused(roles: seq<string>, header: Option<string>, verify: string -> Option<Claims>)
    requires BearerToken(header).Some?
    requires verify(BearerToken(header).value).Some? && verify(BearerToken(header).value).value.role.None?
    ensures Decide(roles, header, verify) == NotAllowed
  {
  }

  /** With no `Authorization` header, or one without a second part, the request has no token. */
  lemma MissingTokenExamples(verify: string -> Option<Claims>, roles: seq<string>)
    ensures Decide(roles, None, verify) == NoToken
    ensures Decide(roles, Some("Bearer"), verify) == NoToken
    ensures Decide(roles, Some("Bearer "), verify) == NoToken
  {
    NoSpace("Bearer");
    SplitAtSpace("Bearer", "");
    assert "Bearer" + " " + "" == "Bearer ";
  }
}

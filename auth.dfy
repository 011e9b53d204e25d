/** The bearer-token gate `verifyAdminToken` that guards the admin routes:
    it takes the second space-separated piece of the `Authorization` header
    as the token, rejects a missing or empty token, asks the JWT verifier
    about the rest, and on success records the decoded payload on the
    request and passes control on. The verifier (`jwt.verify` with the
    server's secret) is a parameter: a partial function from token to
    payload, `None` where it throws. */
module Auth {
  import opened Documents

  const Space: char := ' '

  const NoTokenMessage: string := "Access denied. No token provided."
  const InvalidTokenMessage: string := "Invalid token."

  /** The pieces joined back with one separator between neighbours. */
  function Join(pieces: seq<string>, sep: char): string
    requires |pieces| >= 1
  {
    if |pieces| == 1 then pieces[0] else pieces[0] + [sep] + Join(pieces[1..], sep)
  }

  /** `s.split(sep)` for a one-character separator: the text between
      separators, empty pieces included; never an empty list. */
  function Split(s: string, sep: char): (pieces: seq<string>)
    ensures |pieces| >= 1
    ensures forall i :: 0 <= i < |pieces| ==> sep !in pieces[i]
    ensures Join(pieces, sep) == s
    decreases |s|
  {
    if s == [] then [""]
    else
      var rest := Split(s[1..], sep);
      if s[0] == sep then
        assert s == [sep] + s[1..];
        [""] + rest
      else
        var pieces := [[s[0]] + rest[0]] + rest[1..];
        assert |rest| > 1 ==> Join(rest, sep) == rest[0] + [sep] + Join(rest[1..], sep);
        assert |rest| > 1 ==> Join(pieces, sep) == [s[0]] + rest[0] + [sep] + Join(rest[1..], sep);
        assert s == [s[0]] + s[1..];
        pieces
  }

  /** `authorization?.split(" ")[1]`: `None` (undefined) when the header is
      absent or contains no space. */
  function TokenOf(authorization: Option<string>): (token: Option<string>)
    ensures authorization.None? ==> token.None?
    ensures token.Some? ==> Space in authorization.value && Space !in token.value
  {
    match authorization
    case None => None
    case Some(h) =>
      var pieces := Split(h, Space);
      if |pieces| >= 2 then Some(pieces[1]) else None
  }

  /** `!token` is false: the token, `undefined` when absent, is truthy. */
  predicate HasToken(token: Option<string>): (present: bool)
    ensures !present <==> token == None || token == Some("")
  {
    Truthy(if token.None? then Undefined else Str(token.value))
  }

  /** The position of the first `c` in `s`. */
  function IndexOf(s: string, c: char): (i: nat)
    requires c in s
    ensures i < |s| && s[i] == c && c !in s[..i]
  {
    if s[0] == c then 0
    else
      var j := IndexOf(s[1..], c);
      assert s[..j + 1] == [s[0]] + s[1..][..j];
      j + 1
  }

  /** A reading of the header that does not split it: the text after the
      first space, up to the next space or the end. */
  function SecondWord(h: string): Option<string> {
    if Space !in h then None
    else
      var tail := h[IndexOf(h, Space) + 1..];
      Some(if Space in tail then tail[..IndexOf(tail, Space)] else tail)
  }

  /** The header's token according to `SecondWord`. */
  function HeaderToken(authorization: Option<string>): Option<string> {
    if authorization.None? then None else SecondWord(authorization.value)
  }

  lemma {:induction false} SplitNoSeparator(s: string, sep: char)
    requires sep !in s
    ensures Split(s, sep) == [s]
    decreases |s|
  {
    if s != [] {
      SplitNoSeparator(s[1..], sep);
      assert s == [s[0]] + s[1..];
    }
  }

  /** A leading piece without separator splits off as the first piece. */
  lemma {:induction false} SplitAfterPiece(p: string, sep: char, rest: string)
    requires sep !in p
    ensures Split(p + [sep] + rest, sep) == [p] + Split(rest, sep)
    decreases |p|
  {
    var s := p + [sep] + rest;
    if p == [] {
      assert s[1..] == rest;
    } else {
      assert s[1..] == p[1..] + [sep] + rest;
      SplitAfterPiece(p[1..], sep, rest);
      assert [p[0]] + p[1..] == p;
    }
  }

  /** The first piece of a split, read without splitting. */
  lemma FirstPiece(s: string)
    ensures Split(s, Space)[0] == if Space in s then s[..IndexOf(s, Space)] else s
  {
    if Space !in s {
      SplitNoSeparator(s, Space);
    } else {
      var j := IndexOf(s, Space);
      assert s == s[..j] + [Space] + s[j + 1..];
      SplitAfterPiece(s[..j], Space, s[j + 1..]);
    }
  }

  /** The split-based token is the `SecondWord` of the header. */
  lemma TokenOfIsSecondWord(h: string)
    ensures TokenOf(Some(h)) == SecondWord(h)
  {
    if Space !in h {
      SplitNoSeparator(h, Space);
    } else {
      var i := IndexOf(h, Space);
      var tail := h[i + 1..];
      assert h == h[..i] + [Space] + tail;
      SplitAfterPiece(h[..i], Space, tail);
      var pieces := Split(h, Space);
      assert pieces == [h[..i]] + Split(tail, Space);
      assert pieces[1] == Split(tail, Space)[0];
      FirstPiece(tail);
    }
  }

  lemma TokenOfIsHeaderToken(authorization: Option<string>)
    ensures TokenOf(authorization) == HeaderToken(authorization)
  {
    if authorization.Some? {
      TokenOfIsSecondWord(authorization.value);
    }
  }

  /** The token is the second space-separated piece whatever the first piece
      (the scheme word) is: "Bearer" is never checked. */
  lemma TokenIsSecondPiece(scheme: string, token: string, rest: string)
    requires Space !in scheme && Space !in token
    requires rest == [] || rest[0] == Space
    ensures TokenOf(Some(scheme + [Space] + token + rest)) == Some(token)
  {
    assert scheme + [Space] + token + rest == scheme + [Space] + (token + rest);
    SplitAfterPiece(scheme, Space, token + rest);
    if rest == [] {
      assert token + rest == token;
      SplitNoSeparator(token, Space);
    } else {
      assert token + rest == token + [Space] + rest[1..];
      SplitAfterPiece(token, Space, rest[1..]);
    }
  }

  /** A header without a space carries no token. */
  lemma NoSpaceNoToken(h: string)
    requires Space !in h
    ensures TokenOf(Some(h)) == None
  {
    SplitNoSeparator(h, Space);
  }

  /** "Bearer " and "Bearer  x" (an empty second piece) carry no token. */
  lemma EmptySecondPieceNoToken(scheme: string, rest: string)
    requires Space !in scheme
    requires rest == [] || rest[0] == Space
    ensures !HasToken(TokenOf(Some(scheme + [Space] + rest)))
  {
    TokenIsSecondPiece(scheme, "", rest);
    assert scheme + [Space] + "" + rest == scheme + [Space] + rest;
  }

  /** The three outcomes of the gate. */
  datatype Decision = NoToken | InvalidToken | Admitted(admin: Value)

  /** The gate's decision for a request with this `Authorization` header. */
  function Decide(authorization: Option<string>, verify: string -> Option<Value>): (d: Decision)
    ensures d == NoToken <==> !HasToken(HeaderToken(authorization))
    ensures d == InvalidToken <==>
      HasToken(HeaderToken(authorization)) && verify(HeaderToken(authorization).value).None?
    ensures d.Admitted? ==>
      HasToken(HeaderToken(authorization)) && verify(HeaderToken(authorization).value) == Some(d.admin)
  {
    TokenOfIsHeaderToken(authorization);
    var token := TokenOf(authorization);
    if !HasToken(token) then NoToken
    else match verify(token.value)
      case None => InvalidToken
      case Some(payload) => Admitted(payload)
  }

  /** The parts of an Express request the gate reads and writes. */
  class Request {
    const authorization: Option<string>
    var admin: Option<Value>

    constructor (authorization: Option<string>)
      ensures this.authorization == authorization && admin == None
    {
      this.authorization := authorization;
      admin := None;
    }
  }

  /** The parts of an Express response the gate writes; `status` is `None`
      until a response is sent. */
  class Response {
    var status: Option<nat>
    var message: string

    constructor ()
      ensures status == None && message == ""
    {
      status := None;
      message := "";
    }
  }

  /** `verifyAdminToken(req, res, next)`; `nextCalls` is how many times
      `next` was invoked. */
  method VerifyAdminToken(req: Request, res: Response, verify: string -> Option<Value>)
    returns (nextCalls: nat)
    modifies req, res
    ensures Decide(req.authorization, verify) == NoToken ==>
      res.status == Some(401) && res.message == NoTokenMessage &&
      req.admin == old(req.admin) && nextCalls == 0
    ensures Decide(req.authorization, verify) == InvalidToken ==>
      res.status == Some(401) && res.message == InvalidTokenMessage &&
      req.admin == old(req.admin) && nextCalls == 0
    ensures Decide(req.authorization, verify).Admitted? ==>
      req.admin == Some(Decide(req.authorization, verify).admin) &&
      res.status == old(res.status) && res.message == old(res.message) && nextCalls == 1
  {
    var token := TokenOf(req.authorization);
    if !HasToken(token) {
      res.status, res.message := Some(401), NoTokenMessage;
      return 0;
    }
    var verified := verify(token.value);
    if verified.None? {
      res.status, res.message := Some(401), InvalidTokenMessage;
      return 0;
    }
    req.admin := Some(verified.value);
    nextCalls := 1;
  }
}

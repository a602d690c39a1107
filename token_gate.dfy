/** The `verifyToken` middleware: it reads the bearer token out of the
    `Authorization` header, answers 401 when there is none, 403 when the
    token does not verify, and otherwise stores the decoded payload in
    `req.user` and passes the request on. Signature and expiry checking are
    the token library's; here they are the oracle `verify`. */
module TokenGate {
  import opened Js
  import opened Http

  /** The payload a session token carries: `{ userId, nama, role }`. */
  datatype Claims = Claims(userId: Value, nama: Value, role: Value)

  const MissingToken := Reply(401, Message("Akses ditolak. Token tidak ada."))
  const InvalidToken := Reply(403, Message("Token tidak valid."))

  /** `authHeader && authHeader.split(' ')[1]`, with None for `undefined`.
      An empty header is falsy and is itself the result, so it gives `""`. */
  function BearerToken(header: Option<string>): (token: Option<string>)
    ensures header.None? ==> token.None?
    ensures token.Some? ==> ' ' !in token.value
  {
    match header
    case None => None
    case Some(h) =>
      if h == "" then Some("")
      else
        SplitPiecesFree(h, ' ');
        Element(Split(h, ' '), 1)
  }

  /** The token is `undefined` exactly when the header is absent, or is a
      non-empty string without a space. */
  lemma TokenAbsent(header: Option<string>)
    ensures BearerToken(header).None? <==> header.None? || (header.value != "" && ' ' !in header.value)
  {
    if header.Some? && header.value != "" {
      SplitCount(header.value, ' ');
    }
  }

  /** `"<scheme> <token>"` yields the token when neither part holds a space. */
  lemma TokenAfterScheme(scheme: string, token: string)
    requires ' ' !in scheme && ' ' !in token
    ensures BearerToken(Some(scheme + " " + token)) == Some(token)
  {
    SplitAfterWord(scheme, ' ', token);
    SplitWhole(token, ' ');
  }

  /** An empty header and `"Bearer "` both yield the empty token, which is not
      `undefined` and so goes on to verification. */
  lemma EmptyToken()
    ensures BearerToken(Some("")) == Some("")
    ensures BearerToken(Some("Bearer ")) == Some("")
  {
    SplitAfterWord("Bearer", ' ', "");
    assert "Bearer" + [' '] + "" == "Bearer ";
  }

  /** Whenever a non-empty header yields a token, the header is a space-free
      word, one space, the token, and then nothing or a further space: the
      token is the text between the first and the second space. */
  lemma TokenShape(h: string) returns (word: string, rest: string)
    requires h != "" && BearerToken(Some(h)).Some?
    ensures ' ' !in word && ' ' !in BearerToken(Some(h)).value
    ensures h == word + " " + BearerToken(Some(h)).value + rest
    ensures rest == "" || rest[0] == ' '
  {
    var parts := Split(h, ' ');
    SplitJoin(h, ' ');
    SplitPiecesFree(h, ' ');
    assert |parts| >= 2;
    word := parts[0];
    var t := parts[1];
    assert ' ' !in word && ' ' !in t;
    var tail := parts[1..];
    assert tail[0] == t;
    if |parts| == 2 {
      rest := "";
      assert Join(tail, ' ') == t;
    } else {
      rest := " " + Join(parts[2..], ' ');
      assert tail[1..] == parts[2..];
      assert Join(tail, ' ') == t + [' '] + Join(parts[2..], ' ');
    }
    assert h == word + [' '] + Join(tail, ' ');
  }

  /** Which of its three outcomes the middleware reaches. */
  datatype Verdict = Missing | Invalid | Admitted(user: Claims)

  /** `token == null` catches only `undefined`; anything else is verified. */
  function Gate(header: Option<string>, verify: string -> Option<Claims>): (v: Verdict)
    ensures v.Missing? <==> BearerToken(header).None?
    ensures v.Invalid? <==> BearerToken(header).Some? && verify(BearerToken(header).value).None?
    ensures v.Admitted? ==> verify(BearerToken(header).value) == Some(v.user)
  {
    match BearerToken(header)
    case None => Missing
    case Some(token) =>
      match verify(token)
      case None => Invalid
      case Some(user) => Admitted(user)
  }

  /** A route mounted behind `verifyToken`: the handler runs with `req.user`
      only when the gate admits the request. */
  function Guarded(header: Option<string>, verify: string -> Option<Claims>,
                   handler: Claims -> Handled): (h: Handled)
    ensures !Gate(header, verify).Admitted? ==> h.query == None && h.reply.status in {401, 403}
    ensures Gate(header, verify).Admitted? ==> h == handler(Gate(header, verify).user)
  {
    match Gate(header, verify)
    case Missing => Handled(MissingToken, None)
    case Invalid => Handled(InvalidToken, None)
    case Admitted(user) => handler(user)
  }

  /** The empty token is never refused as missing: it reaches verification. */
  lemma EmptyHeaderVerified(verify: string -> Option<Claims>)
    ensures Gate(Some(""), verify) == (if verify("").Some? then Admitted(verify("").value) else Invalid)
    ensures Gate(Some("Bearer "), verify) == Gate(Some(""), verify)
  {
    EmptyToken();
  }

  /** When the token library refuses the empty string, an empty header is
      answered 403 "Token tidak valid." and the handler never runs. */
  lemma EmptyHeaderRefused(verify: string -> Option<Claims>, handler: Claims -> Handled)
    requires verify("") == None
    ensures Guarded(Some(""), verify, handler) == Handled(InvalidToken, None)
    ensures Guarded(Some("Bearer "), verify, handler) == Handled(InvalidToken, None)
  {
    EmptyHeaderVerified(verify);
  }

  /** One request/response pair as the middleware sees it. */
  class Exchange {
    /** `req.headers['authorization']` */
    const authorization: Option<string>
    /** `req.user` */
    var user: Option<Claims>
    /** The reply written to `res`, once written. */
    var sent: Option<Reply>
    /** How many times `next()` has been called. */
    var nextCalls: nat

    constructor (authorization: Option<string>)
      ensures this.authorization == authorization
      ensures user == None && sent == None && nextCalls == 0
    {
      this.authorization := authorization;
      user, sent, nextCalls := None, None, 0;
    }

    /** `res.status(..).json(..)` */
    method Send(reply: Reply)
      modifies this`sent
      ensures sent == Some(reply)
    {
      sent := Some(reply);
    }

    /** `next()` */
    method Next()
      modifies this`nextCalls
      ensures nextCalls == old(nextCalls) + 1
    {
      nextCalls := nextCalls + 1;
    }

    /** The middleware body. Exactly one of: a 401 reply, a 403 reply, or
        `req.user` set to the decoded payload and `next()` called once. */
    method VerifyToken(verify: string -> Option<Claims>)
      requires sent == None && nextCalls == 0
      modifies this
      ensures sent.Some? <==> nextCalls == 0
      ensures nextCalls <= 1
      ensures Gate(authorization, verify).Missing? ==> sent == Some(MissingToken) && user == old(user)
      ensures Gate(authorization, verify).Invalid? ==> sent == Some(InvalidToken) && user == old(user)
      ensures Gate(authorization, verify).Admitted? ==>
                sent == None && nextCalls == 1 && user == Some(Gate(authorization, verify).user)
    {
      var token := BearerToken(authorization);
      if token.None? {
        Send(MissingToken);
        return;
      }
      var decoded := verify(token.value);
      if decoded.None? {
        Send(InvalidToken);
        return;
      }
      user := decoded;
      Next();
    }

    /** A route mounted as `verifyToken, handler`: the middleware runs, and
        the handler writes its reply only when `next()` was called. The reply
        sent is the one `Guarded` describes. */
    method Dispatch(verify: string -> Option<Claims>, handler: Claims -> Handled)
      requires sent == None && nextCalls == 0
      modifies this
      ensures sent == Some(Guarded(authorization, verify, handler).reply)
      ensures nextCalls <= 1
      ensures nextCalls == 1 <==> Gate(authorization, verify).Admitted?
      ensures user == (if Gate(authorization, verify).Admitted? then Some(Gate(authorization, verify).user) else old(user))
    {
      VerifyToken(verify);
      if nextCalls == 1 {
        Send(handler(user.value).reply);
      }
    }
  }
}

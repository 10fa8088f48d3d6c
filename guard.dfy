/** The admin guard on socket messages: it lets a request through only when
    the caller's token verifies and names the poll's admin as its subject. It
    only reads: the token, the verifier and one store lookup. */
module AdminGuard {
  import opened PollTypes
  import opened Repository

  /** The two places a socket handshake can carry the token. */
  datatype Handshake = Handshake(authToken: Option<string>, headerToken: Option<string>)

  /** The verified token payload the guard uses. */
  datatype Payload = Payload(sub: string, pollID: string)

  /** `true`, or the WsUnauthorizedException thrown with its message. */
  datatype Verdict = Allowed | Unauthorized(message: string)

  const NoTokenMessage: string := "No token provided"
  const AdminRequiredMessage: string := "Admin privileges required"

  /** JavaScript truthiness of an optional string: present and non-empty. */
  predicate Present(s: Option<string>): (p: bool)
    ensures s.None? ==> !p
    ensures s.Some? ==> (p <==> s.value != "")
  {
    s.Some? && s.value != ""
  }

  /** `handshake.auth.token || handshake.headers['token']`. */
  function Token(h: Handshake): (t: Option<string>)
    ensures Present(t) <==> Present(h.authToken) || Present(h.headerToken)
    ensures Present(h.authToken) ==> t == h.authToken
    ensures !Present(h.authToken) ==> t == h.headerToken
  {
    if Present(h.authToken) then h.authToken else h.headerToken
  }

  /** The poll named by the payload exists and its admin is the payload's subject. */
  predicate SubjectIsAdmin(store: Store, p: Payload, link: Link) {
    link.Up? && Key(p.pollID) in store && store[Key(p.pollID)].doc.adminID == p.sub
  }

  /** canActivate. `verify` stands for jwtService.verify (None: it throws);
      `store` and `link` are what the service's getPoll reads. */
  function CanActivate(h: Handshake, verify: string -> Option<Payload>, store: Store, link: Link): (v: Verdict)
    ensures v == Allowed <==>
              Present(Token(h)) && verify(Token(h).value).Some? && SubjectIsAdmin(store, verify(Token(h).value).value, link)
    ensures !Present(Token(h)) ==> v == Unauthorized(NoTokenMessage)
    ensures Present(Token(h)) && v != Allowed ==> v == Unauthorized(AdminRequiredMessage)
  {
    var token := Token(h);
    if !Present(token) then Unauthorized(NoTokenMessage)
    else
      match verify(token.value)
      case None => Unauthorized(AdminRequiredMessage)
      case Some(payload) =>
        match LookUp(store, payload.pollID, link)
        case Err(_) => Unauthorized(AdminRequiredMessage)
        case Ok(None) => Unauthorized(AdminRequiredMessage)  // poll.adminID on null throws
        case Ok(Some(poll)) =>
          if payload.sub != poll.adminID then Unauthorized(AdminRequiredMessage) else Allowed
  }

  /** Without a token the verdict depends neither on the verifier nor on the
      store: neither is consulted. */
  lemma NoTokenConsultsNothing(h: Handshake, verify1: string -> Option<Payload>, verify2: string -> Option<Payload>,
                               store1: Store, store2: Store, link1: Link, link2: Link)
    requires !Present(Token(h))
    ensures CanActivate(h, verify1, store1, link1) == CanActivate(h, verify2, store2, link2) == Unauthorized(NoTokenMessage)
  {
  }

  /** A verified subject that is not the admin is refused as a non-admin. */
  lemma NonAdminRefused(h: Handshake, verify: string -> Option<Payload>, store: Store, link: Link)
    requires Present(Token(h)) && verify(Token(h).value).Some?
    requires var p := verify(Token(h).value).value;
             link.Up? && Key(p.pollID) in store && store[Key(p.pollID)].doc.adminID != p.sub
    ensures CanActivate(h, verify, store, link) == Unauthorized(AdminRequiredMessage)
  {
  }

  /** A failed verification, a rejected lookup and a missing poll are all
      refused with the same message. */
  lemma LookupFailuresRefused(h: Handshake, verify: string -> Option<Payload>, store: Store, link: Link)
    requires Present(Token(h))
    requires verify(Token(h).value).None? || link.Down? || Key(verify(Token(h).value).value.pollID) !in store
    ensures CanActivate(h, verify, store, link) == Unauthorized(AdminRequiredMessage)
  {
  }
}

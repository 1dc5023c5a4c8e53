/** The two request guards: `protect` takes the bearer token out of the
    Authorization header, and `authorize` checks the caller's role against
    the roles a route allows.  Verifying the token's signature and loading
    its user are outside this model: a request that gets past the header
    check is handed on with its token. */
module Auth {
  import opened Common
  import opened Text
  import opened UserModel

  /** The token `protect` reads: the second space-separated field of a
      header that starts with "Bearer", if there is one. */
  function BearerToken(authorization: Option<string>): (token: Option<string>)
    ensures token.Some? <==> && authorization.Some? && StartsWith(authorization.value, "Bearer")
                             && |Split(authorization.value, ' ')| >= 2
    ensures token.Some? ==> token.value == Split(authorization.value, ' ')[1]
    ensures token.Some? ==> ' ' !in token.value
  {
    if authorization.Some? && authorization.value != "" && StartsWith(authorization.value, "Bearer") then
      var fields := Split(authorization.value, ' ');
      if |fields| >= 2 then Some(fields[1]) else None
    else None
  }

  /** What `protect` does with a request: answer 401, or pass the token on
      to signature verification. */
  datatype Gate = Reject(error: Error) | Verify(token: string)

  /** `protect` up to the signature check: no token, or an empty one, is
      answered with 401 before anything else happens. */
  function Protect(authorization: Option<string>): (g: Gate)
    ensures g.Reject? ==> g.error == Unauthorized
    ensures g.Verify? ==> && authorization.Some? && StartsWith(authorization.value, "Bearer")
                          && g.token != "" && ' ' !in g.token
    ensures g.Verify? <==> BearerToken(authorization).Some? && BearerToken(authorization) != Some("")
    ensures g.Verify? ==> BearerToken(authorization) == Some(g.token)
  {
    var token := BearerToken(authorization);
    if token.None? || token.value == "" then Reject(Unauthorized) else Verify(token.value)
  }

  /** A header whose first field starts with "Bearer" and whose second
      field is a token hands exactly that token on, whatever further fields
      follow it. */
  lemma {:induction false} ProtectTakesSecondField(scheme: string, token: string, rest: seq<string>)
    requires StartsWith(scheme, "Bearer") && ' ' !in scheme
    requires token != "" && ' ' !in token
    requires forall i :: 0 <= i < |rest| ==> ' ' !in rest[i]
    ensures Protect(Some(Join([scheme, token] + rest, ' '))) == Verify(token)
  {
    var fields := [scheme, token] + rest;
    forall i | 0 <= i < |fields| ensures ' ' !in fields[i] {
      if i >= 2 {
        assert fields[i] == rest[i - 2];
      }
    }
    SplitJoin(fields, ' ');
    var h := Join(fields, ' ');
    assert h == scheme + [' '] + Join(fields[1..], ' ');
    assert h[..6] == scheme[..6];
  }

  /** The plain two-field header. */
  lemma ProtectAcceptsBearerHeader(token: string)
    requires token != "" && ' ' !in token
    ensures Protect(Some("Bearer " + token)) == Verify(token)
  {
    ProtectTakesSecondField("Bearer", token, []);
    assert Join(["Bearer", token], ' ') == "Bearer " + token;
  }

  /** No header, and a header of any other scheme, is answered with 401. */
  lemma ProtectRejectsWithoutBearer(authorization: Option<string>)
    requires authorization.None? || !StartsWith(authorization.value, "Bearer")
    ensures Protect(authorization) == Reject(Unauthorized)
  {
  }

  /** A header without a space has no second field and is answered with
      401, "Bearer" alone included. */
  lemma ProtectRejectsBareScheme(h: string)
    requires ' ' !in h
    ensures Protect(Some(h)) == Reject(Unauthorized)
  {
    SplitWithoutSeparator(h, ' ');
  }

  /** A header whose second field is empty (nothing, or another space,
      after the first space) is answered with 401. */
  lemma ProtectRejectsEmptyToken(scheme: string, t: string)
    requires ' ' !in scheme
    requires t == "" || t[0] == ' '
    ensures Protect(Some(scheme + " " + t)) == Reject(Unauthorized)
  {
    assert scheme + " " + t == scheme + [' '] + t;
    SplitAtSeparator(scheme, ' ', t);
    assert Split(t, ' ')[0] == "";
  }

  /** The header check is a prefix test, not a scheme check: a first field
      that merely starts with "Bearer" is accepted too. */
  lemma ProtectAcceptsLongerScheme()
    ensures Protect(Some("Bearerx abc")) == Verify("abc")
  {
    assert StartsWith("Bearerx", "Bearer");
    ProtectTakesSecondField("Bearerx", "abc", []);
    assert Join(["Bearerx", "abc"], ' ') == "Bearerx abc";
  }

  /** `authorize(...roles)`: the caller passes exactly when its role is one
      of the allowed ones, and is answered with 403 otherwise. */
  function Authorize(allowed: seq<Role>, caller: Caller): (r: Result<()>)
    ensures r.Ok? <==> caller.role in allowed
    ensures r.Err? ==> r.error == Forbidden
  {
    if caller.role in allowed then Ok(()) else Err(Forbidden)
  }

  /** Only the set of allowed roles matters: listing them in another order
      or more than once decides the same way. */
  lemma AuthorizeDependsOnSetOnly(a: seq<Role>, b: seq<Role>, caller: Caller)
    requires forall role :: role in a <==> role in b
    ensures Authorize(a, caller) == Authorize(b, caller)
  {
  }

  /** Listing the allowed roles twice changes nothing. */
  lemma AuthorizeIdempotent(a: seq<Role>, caller: Caller)
    ensures Authorize(a + a, caller) == Authorize(a, caller)
  {
    AuthorizeDependsOnSetOnly(a + a, a, caller);
  }
}

/** The bearer-token middleware of middleware/auth.js. Signature checking
    (`jwt.verify`) is a parameter: it yields the decoded payload, or nothing
    when it throws. */
module Auth {
  import opened Wrappers
  import opened Http

  const Prefix: string := "Bearer "
  const FallbackSecret: string := "your-secret-key"

  predicate StartsWith(s: string, prefix: string) {
    |prefix| <= |s| && s[..|prefix|] == prefix
  }

  /** `process.env.JWT_SECRET || "your-secret-key"`: an unset or empty
      variable falls back to the built-in secret. */
  function Secret(env: Option<string>): (key: string)
    ensures env.Some? && env.value != "" ==> key == env.value
    ensures env.None? || env.value == "" ==> key == FallbackSecret
  {
    if env.Some? && env.value != "" then env.value else FallbackSecret
  }

  predicate OccursAt(s: string, pat: string, k: nat) {
    k + |pat| <= |s| && s[k..k + |pat|] == pat
  }

  /** The first position at or after `from` where `pat` occurs in `s`. */
  function FindFrom(s: string, pat: string, from: nat): (r: Option<nat>)
    decreases |s| - from
    ensures r.Some? ==> from <= r.value && OccursAt(s, pat, r.value)
    ensures r.Some? ==> forall k: nat :: from <= k < r.value ==> !OccursAt(s, pat, k)
    ensures r.None? ==> forall k: nat :: from <= k ==> !OccursAt(s, pat, k)
  {
    if from + |pat| > |s| then None
    else if s[from..from + |pat|] == pat then Some(from)
    else FindFrom(s, pat, from + 1)
  }

  /** `String.prototype.replace` with a string pattern: only the first
      occurrence is replaced. */
  function ReplaceFirst(s: string, pat: string, rep: string): string {
    match FindFrom(s, pat, 0)
    case None => s
    case Some(i) => s[..i] + rep + s[i + |pat|..]
  }

  /** `authHeader.replace("Bearer ", "")` on a header that starts with the
      prefix: the text after the seven prefix characters. */
  function Token(header: string): (token: string)
    requires StartsWith(header, Prefix)
    ensures token == header[|Prefix|..]
    ensures Prefix + token == header
  {
    assert header[0..|Prefix|] == Prefix;
    ReplaceFirst(header, Prefix, "")
  }

  /** Extracting the token undoes prefixing it. */
  lemma TokenRoundTrip(token: string)
    ensures StartsWith(Prefix + token, Prefix)
    ensures Token(Prefix + token) == token
  {
    assert (Prefix + token)[..|Prefix|] == Prefix;
  }

  /** How a request leaves the middleware: a 401 reply, or `next()` with
      `req.admin` set to the payload. */
  datatype Verdict<P> = Unauthorized(failure: Failure) | Proceed(admin: P)

  const NoToken: Failure := Says("No token provided")
  const BadToken: Failure := Says("Invalid token")

  function Gate<P>(header: Option<string>, env: Option<string>,
                   verify: (string, string) -> Option<P>): (v: Verdict<P>)
    ensures v.Proceed? <==>
      header.Some? && StartsWith(header.value, Prefix) && verify(Token(header.value), Secret(env)).Some?
    ensures v.Proceed? ==> Some(v.admin) == verify(header.value[|Prefix|..], Secret(env))
    ensures header.None? || !StartsWith(header.value, Prefix) ==> v == Unauthorized(NoToken)
    ensures (header.Some? && StartsWith(header.value, Prefix)
             && verify(header.value[|Prefix|..], Secret(env)).None?) ==> v == Unauthorized(BadToken)
  {
    if header.None? || !StartsWith(header.value, Prefix) then Unauthorized(NoToken)
    else
      match verify(Token(header.value), Secret(env))
      case None => Unauthorized(BadToken)
      case Some(payload) => Proceed(payload)
  }

  /** The prefix check is case-sensitive and needs the trailing space. */
  lemma PrefixIsExact<P>(rest: string, env: Option<string>, verify: (string, string) -> Option<P>)
    ensures Gate(Some("bearer " + rest), env, verify) == Unauthorized(NoToken)
    ensures Gate(Some("Bearer"), env, verify) == Unauthorized(NoToken)
  {
    var h := "bearer " + rest;
    assert h[..|Prefix|][0] == 'b' != Prefix[0];
  }

  /** The request and response state the middleware touches. */
  class Exchange<P> {
    var admin: Option<P>        // req.admin
    var status: Option<nat>     // the status of a reply sent, if any
    var error: Option<Failure>  // the error body of that reply
    var nextCalls: nat          // how often `next()` was called

    constructor ()
      ensures admin.None? && status.None? && error.None? && nextCalls == 0
    {
      admin := None;
      status := None;
      error := None;
      nextCalls := 0;
    }
  }

  /** The middleware: it either sends a 401 or sets `req.admin` and calls
      `next` once, never both. */
  method Authenticate<P>(ex: Exchange<P>, header: Option<string>, env: Option<string>,
                         verify: (string, string) -> Option<P>)
    returns (v: Verdict<P>)
    modifies ex
    ensures v == Gate(header, env, verify)
    ensures v.Proceed? ==>
      && ex.admin == Some(v.admin) && ex.nextCalls == old(ex.nextCalls) + 1
      && ex.status == old(ex.status) && ex.error == old(ex.error)
    ensures v.Unauthorized? ==>
      && ex.status == Some(401) && ex.error == Some(v.failure)
      && ex.nextCalls == old(ex.nextCalls) && ex.admin == old(ex.admin)
  {
    if header.None? || !StartsWith(header.value, Prefix) {
      ex.status, ex.error := Some(401), Some(NoToken);
      return Unauthorized(NoToken);
    }
    var token := Token(header.value);
    var decoded := verify(token, Secret(env));
    if decoded.None? {
      ex.status, ex.error := Some(401), Some(BadToken);
      return Unauthorized(BadToken);
    }
    ex.admin := decoded;
    ex.nextCalls := ex.nextCalls + 1;
    v := Proceed(decoded.value);
  }
}

/** The authentication middleware in front of the cart, order, review and
    address routes, as a request that does not identify a user meets it:
    the `Authorization` header is read, its first `Bearer ` is removed, and
    the request is refused as carrying no token when nothing is left, and
    as carrying an invalid one otherwise. Checking a token and looking up
    its user are not modelled. */
module AuthMiddleware {
  import opened Common

  const NoTokenMessage: string := "No token, authorization denied"
  const BadTokenMessage: string := "Token is not valid"
  const BearerPrefix: string := "Bearer "

  /** HTTP white space: tab, line feed, carriage return and space. */
  predicate IsHttpSpace(c: char)
  {
    c == '\t' || c == '\n' || c == '\r' || c == ' '
  }

  function StripStart(s: string): (r: string)
    ensures |r| <= |s| && r == s[|s| - |r|..]
    ensures |r| > 0 ==> !IsHttpSpace(r[0])
    ensures |s| > 0 && !IsHttpSpace(s[0]) ==> r == s
  {
    if |s| > 0 && IsHttpSpace(s[0]) then StripStart(s[1..]) else s
  }

  function StripEnd(s: string): (r: string)
    ensures |r| <= |s| && r == s[..|r|]
    ensures |r| > 0 ==> !IsHttpSpace(r[|r| - 1])
    ensures |s| > 0 && !IsHttpSpace(s[0]) ==> |r| > 0
  {
    if |s| > 0 && IsHttpSpace(s[|s| - 1]) then StripEnd(s[..|s| - 1]) else s
  }

  /** The normalisation `setRequestHeader` applies to a header value:
      leading and trailing HTTP white space is removed. */
  function Normalize(v: string): (r: string)
    ensures |r| <= |v|
    ensures |r| > 0 ==> !IsHttpSpace(r[0]) && !IsHttpSpace(r[|r| - 1])
  {
    StripEnd(StripStart(v))
  }

  predicate MatchAt(s: string, pat: string, k: nat)
  {
    k + |pat| <= |s| && s[k..k + |pat|] == pat
  }

  /** The first position at or after `i` where `pat` occurs in `s`. */
  function IndexFrom(s: string, pat: string, i: nat): (r: Option<nat>)
    requires i <= |s|
    ensures r.Some? ==> i <= r.value && MatchAt(s, pat, r.value)
    ensures r.Some? ==> forall k :: i <= k < r.value ==> !MatchAt(s, pat, k)
    ensures r.None? ==> forall k :: i <= k <= |s| ==> !MatchAt(s, pat, k)
    decreases |s| - i
  {
    if MatchAt(s, pat, i) then Some(i)
    else if i == |s| then None
    else IndexFrom(s, pat, i + 1)
  }

  /** `s.replace(pat, '')` with a string pattern: the first occurrence, if
      any, is removed and the rest is kept. */
  function RemoveFirst(s: string, pat: string): (r: string)
    ensures MatchAt(s, pat, 0) ==> r == s[|pat|..]
    ensures (forall k :: 0 <= k <= |s| ==> !MatchAt(s, pat, k)) ==> r == s
    ensures r == s || |r| + |pat| == |s|
  {
    match IndexFrom(s, pat, 0)
    case None => s
    case Some(k) => s[..k] + s[k + |pat|..]
  }

  /** `req.header('Authorization')?.replace('Bearer ', '')`: `None` when the
      request has no such header. */
  function PresentedToken(header: Option<string>): (t: Option<string>)
    ensures t.None? <==> header.None?
  {
    match header
    case None => None
    case Some(h) => Some(RemoveFirst(h, BearerPrefix))
  }

  /** The 401 for a request whose token does not identify a user: a missing
      or empty token is reported as missing (the `!token` test), any other
      as invalid (`jwt.verify` throws, or no user has that id). */
  function Refusal(header: Option<string>): (e: HttpError)
    ensures e.Unauthorized? && Code(e) == 401
    ensures e.message == NoTokenMessage <==> PresentedToken(header).None? || PresentedToken(header).value == ""
    ensures e.message == BadTokenMessage <==> PresentedToken(header).Some? && PresentedToken(header).value != ""
  {
    var t := PresentedToken(header);
    if t.None? || t.value == "" then Unauthorized(NoTokenMessage) else Unauthorized(BadTokenMessage)
  }

  /** A header made of `Bearer ` and any token, once normalised, never
      presents an empty token. Either the normalised value still starts
      with `Bearer ` and something follows it, because the space is kept
      only before a non-space; or it is a non-empty prefix of `Bearer` in
      which `Bearer ` does not occur, and is presented as it is. */
  lemma BearerHeaderPresentsToken(token: string)
    ensures var t := PresentedToken(Some(Normalize(BearerPrefix + token)));
      t.Some? && t.value != ""
  {
    var s := BearerPrefix + token;
    assert s[0] == 'B';
    var h := StripEnd(StripStart(s));
    assert StripStart(s) == s;
    assert h == s[..|h|];
    if |h| >= |BearerPrefix| {
      assert h[..|BearerPrefix|] == s[..|BearerPrefix|] == BearerPrefix;
      assert MatchAt(h, BearerPrefix, 0);
      assert h[|BearerPrefix| - 1] == ' ';
      assert |h| > |BearerPrefix|;
    } else {
      assert forall k :: 0 <= k <= |h| ==> !MatchAt(h, BearerPrefix, k);
    }
  }
}

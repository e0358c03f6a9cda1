/**
 * Checking, refreshing and ending a session (action/authActions.ts). The cache is consulted
 * first; a miss or an expired entry falls through to the account document, which repairs the
 * cache on success and has its session fields unset when stale.
 */
module AuthActions {
  import opened Wrappers
  import opened Text
  import opened Account
  import OtpActions

  /** `authorization?.split(" ")[1] || ""`: the second space-separated word; the scheme is not checked. */
  function BearerToken(header: Option<string>): (t: string)
    ensures ' ' !in t
    ensures header.None? || ' ' !in header.value ==> t == ""
  {
    if header.None? then ""
    else
      var parts := Split(header.value, ' ');
      if |parts| >= 2 then parts[1] else ""
  }

  /** Whatever word precedes the space, the word after it is taken as the token. */
  lemma BearerTokenOf(scheme: string, token: string)
    requires ' ' !in scheme && ' ' !in token
    ensures BearerToken(Some(scheme + " " + token)) == token
  {
    SplitCons(scheme, ' ', token);
    assert scheme + " " + token == scheme + [' '] + token;
  }

  /** `getTokenFromSession`: `null` for a missing cookie, bad JSON or a `token` that is not a string. */
  function CookieToken(cookie: Option<CookieValue>): (t: Option<string>)
    ensures t.Some? <==> cookie.Some? && cookie.value.TokenCookie?
    ensures t.Some? ==> t.value == cookie.value.token
  {
    match cookie
    case Some(TokenCookie(token)) => Some(token)
    case _ => None
  }

  /** The token `checkAuth` uses: the header's, and the cookie's only when the header gives none. */
  function CheckAuthToken(header: Option<string>, cookie: Option<CookieValue>): (t: Option<string>)
    ensures t.Some? ==> t.value != ""
    ensures BearerToken(header) != "" ==> t == Some(BearerToken(header))
    ensures BearerToken(header) == "" ==>
      (t.Some? <==> CookieToken(cookie).Some? && CookieToken(cookie).value != "")
    ensures BearerToken(header) == "" && t.Some? ==> t == CookieToken(cookie)
  {
    var fromHeader := BearerToken(header);
    if fromHeader != "" then Some(fromHeader)
    else
      var fromCookie := CookieToken(cookie);
      if fromCookie.Some? && fromCookie.value != "" then fromCookie else None
  }

  /**
   * The cookie's `token || ""` as `signOut` reads it: unlike `getTokenFromSession`, a truthy token
   * that is not a string is taken too.
   */
  function SignOutCookieToken(cookie: Option<CookieValue>): (t: string)
    ensures CookieToken(cookie).Some? ==> t == CookieToken(cookie).value
    ensures cookie.Some? && cookie.value.ScalarToken? ==> t == cookie.value.text
    ensures cookie.None? || cookie.value.OtherCookie? ==> t == ""
  {
    match cookie
    case Some(TokenCookie(token)) => token
    case Some(ScalarToken(text)) => text
    case _ => ""
  }

  /** The token `signOut` uses: the cookie's `token || ""`, and the header's only when that is empty. */
  function SignOutToken(cookie: Option<CookieValue>, header: Option<string>): (t: string)
    ensures CookieToken(cookie).Some? && CookieToken(cookie).value != "" ==> t == CookieToken(cookie).value
    ensures cookie.Some? && cookie.value.ScalarToken? && cookie.value.text != "" ==> t == cookie.value.text
    ensures SignOutCookieToken(cookie) == "" ==> t == BearerToken(header)
  {
    var fromCookie := SignOutCookieToken(cookie);
    if fromCookie != "" then fromCookie else BearerToken(header)
  }

  /** A numeric cookie token is ignored by `checkAuth` but revoked by `signOut`. */
  lemma ScalarTokenOnlySignsOut(text: string, header: Option<string>)
    requires text != "" && BearerToken(header) == ""
    ensures CheckAuthToken(header, Some(ScalarToken(text))).None?
    ensures SignOutToken(Some(ScalarToken(text)), header) == text
  {
  }

  /** With a cookie token and a different header token, the two operations act on different sessions. */
  lemma TokenSourcesDiffer(cookieToken: string, header: Option<string>)
    requires cookieToken != "" && BearerToken(header) != "" && BearerToken(header) != cookieToken
    ensures CheckAuthToken(header, Some(TokenCookie(cookieToken))) == Some(BearerToken(header))
    ensures SignOutToken(Some(TokenCookie(cookieToken)), header) == cookieToken
  {
  }

  /** What `checkAuth` reports; `expiresIn` (seconds) is present only on a cache hit. */
  datatype AuthOutcome =
    | NoSessionToken
    | Authenticated(email: string, token: string, expiresIn: Option<real>)
    | SessionExpired
    | AuthError

  /**
   * The verdicts of the store calls `checkAuth` makes: the cache read, the delete of an expired
   * entry, the account lookup and the unset of a stale session, each of which throws to the catch
   * ("Authentication error") when it fails; and the cache write, whose failure `safeRedisSetex`
   * swallows.
   */
  datatype CheckCalls = CheckCalls(getOk: bool, delOk: bool, findOk: bool, unsetOk: bool, setexOk: bool)

  /** Every call that can throw succeeds. */
  predicate NoThrow(calls: CheckCalls) {
    calls.getOk && calls.delOk && calls.findOk && calls.unsetOk
  }

  /** `Math.floor(expires - now) / 1000`: both are whole milliseconds, so the value is exact, in seconds. */
  function ExpiresIn(expires: int, now: int): (secs: real)
    ensures secs * 1000.0 == (expires - now) as real
    ensures expires > now ==> secs > 0.0
  {
    (expires - now) as real / 1000.0
  }

  /** The entry rebuilt from the account document: client details unknown, all timestamps now. */
  function RepairedEntry(u: User, now: int): (e: SessionEntry)
    requires u.sessionExpires.Some?
    ensures e.userId == u.id && e.email == u.email && e.sessionExpires == u.sessionExpires.value
    ensures e.ip == "unknown" && e.userAgent == "unknown"
    ensures e.createdAt == now && e.lastAccessed == now && e.refreshedAt == Some(now)
  {
    SessionEntry(u.id, u.email, u.firstName.GetOr(""), u.lastName.GetOr(""), u.bio.GetOr(""),
                 NonEmpty(u.avatar), u.sessionExpires.value, "unknown", "unknown", now, now, Some(now))
  }

  /** The account-document half of `checkAuth`; a failed cache repair is ignored. */
  function DurableCheck(s: AuthState, token: string, now: int, calls: CheckCalls): (r: Step<AuthOutcome>)
    ensures r.state.cookie == s.cookie && r.state.outbox == s.outbox
    ensures !calls.findOk ==> r == Step(s, AuthError)
    ensures r.outcome.Authenticated? <==>
      && calls.findOk
      && s.user.Some? && s.user.value.sessionToken == Some(token)
      && s.user.value.sessionExpires.Some? && now <= s.user.value.sessionExpires.value
    ensures r.outcome == AuthError <==>
      !calls.findOk || (s.user.Some? && s.user.value.sessionToken == Some(token) && !calls.unsetOk
                        && (s.user.value.sessionExpires.None? || s.user.value.sessionExpires.value < now))
    ensures r.outcome == AuthError ==> r.state == s
    ensures r.outcome == SessionExpired ==> r.state.cache == s.cache && r.state.user == ClearSessionOf(s.user, token)
    ensures r.outcome.Authenticated? ==>
      && r.outcome == Authenticated(s.user.value.email, token, None)
      && r.state.user == s.user
      && r.state.cache == (if calls.setexOk then CacheSet(s.cache, SessionKey(token), RepairedEntry(s.user.value, now), now)
                           else s.cache)
  {
    if !calls.findOk then Step(s, AuthError)
    else if !(s.user.Some? && s.user.value.sessionToken == Some(token)) then Step(s, SessionExpired)
    else
      var u := s.user.value;
      if u.sessionExpires.None? || u.sessionExpires.value < now then
        if !calls.unsetOk then Step(s, AuthError) else Step(s.(user := Some(ClearSession(u))), SessionExpired)
      else
        var cache := if calls.setexOk then CacheSet(s.cache, SessionKey(token), RepairedEntry(u, now), now) else s.cache;
        Step(s.(cache := cache), Authenticated(u.email, token, None))
  }

  /**
   * `checkAuth`. A live cache entry authenticates iff its `sessionExpires > now`, and is then
   * rewritten with only `lastAccessed` changed and a fresh seven-day TTL; an expired one is
   * deleted and the account document decides. A store call that throws ends the check with
   * "Authentication error" and leaves the account as it was.
   */
  function CheckAuthStep(s: AuthState, header: Option<string>, now: int, calls: CheckCalls): (r: Step<AuthOutcome>)
    ensures CheckAuthToken(header, s.cookie).None? <==> r.outcome == NoSessionToken
    ensures r.outcome == NoSessionToken ==> r.state == s
    ensures r.state.cookie == s.cookie && r.state.outbox == s.outbox
    ensures r.outcome.Authenticated? ==> Some(r.outcome.token) == CheckAuthToken(header, s.cookie)
    ensures r.outcome.Authenticated? && r.outcome.expiresIn.Some? ==> r.outcome.expiresIn.value > 0.0
    ensures r.outcome == AuthError ==> !NoThrow(calls) && r.state.user == s.user
    ensures CheckAuthToken(header, s.cookie).Some? && !calls.getOk ==> r == Step(s, AuthError)
    ensures PairedAccount(s.user) ==> PairedAccount(r.state.user)
  {
    var t := CheckAuthToken(header, s.cookie);
    if t.None? then Step(s, NoSessionToken)
    else if !calls.getOk then Step(s, AuthError)
    else
      var token := t.value;
      var key := SessionKey(token);
      var hit := CacheGet(s.cache, key, now);
      if hit.Some? && hit.value.sessionExpires > now then
        var e := hit.value;
        var cache := if calls.setexOk then CacheSet(s.cache, key, e.(lastAccessed := now), now) else s.cache;
        Step(s.(cache := cache), Authenticated(e.email, token, Some(ExpiresIn(e.sessionExpires, now))))
      else if hit.Some? && !calls.delOk then Step(s, AuthError)
      else
        var cache := if hit.Some? then CacheDel(s.cache, key) else s.cache;
        DurableCheck(s.(cache := cache), token, now, calls)
  }

  method CheckAuth(st: Stores, header: Option<string>, now: int, calls: CheckCalls) returns (o: AuthOutcome)
    modifies st
    ensures st.State() == CheckAuthStep(old(st.State()), header, now, calls).state
    ensures o == CheckAuthStep(old(st.State()), header, now, calls).outcome
  {
    var t := CheckAuthToken(header, st.cookie);
    if t.None? {
      return NoSessionToken;
    }
    if !calls.getOk {
      return AuthError;
    }
    var token := t.value;
    var key := SessionKey(token);
    var hit := CacheGet(st.cache, key, now);
    if hit.Some? && hit.value.sessionExpires > now {
      var e := hit.value;
      if calls.setexOk {
        st.cache := CacheSet(st.cache, key, e.(lastAccessed := now), now);
      }
      return Authenticated(e.email, token, Some(ExpiresIn(e.sessionExpires, now)));
    }
    if hit.Some? {
      if !calls.delOk {
        return AuthError;
      }
      st.cache := CacheDel(st.cache, key);
    }
    if !calls.findOk {
      return AuthError;
    }
    if !(st.user.Some? && st.user.value.sessionToken == Some(token)) {
      return SessionExpired;
    }
    var u := st.user.value;
    if u.sessionExpires.None? || u.sessionExpires.value < now {
      if !calls.unsetOk {
        return AuthError;
      }
      st.user := Some(ClearSession(u));
      return SessionExpired;
    }
    if calls.setexOk {
      st.cache := CacheSet(st.cache, key, RepairedEntry(u, now), now);
    }
    o := Authenticated(u.email, token, None);
  }

  /** When no store call throws, the check never answers "Authentication error". */
  lemma NoErrorWithoutThrow(s: AuthState, header: Option<string>, now: int, calls: CheckCalls)
    requires NoThrow(calls)
    ensures CheckAuthStep(s, header, now, calls).outcome != AuthError
  {
  }

  /** A cache hit that authenticates changes nothing in the entry but `lastAccessed`, and restarts its TTL. */
  lemma CacheHitRefresh(s: AuthState, header: Option<string>, now: int, calls: CheckCalls)
    requires calls.getOk && calls.setexOk
    requires CheckAuthToken(header, s.cookie).Some?
    requires var key := SessionKey(CheckAuthToken(header, s.cookie).value);
      CacheGet(s.cache, key, now).Some? && CacheGet(s.cache, key, now).value.sessionExpires > now
    ensures var token := CheckAuthToken(header, s.cookie).value;
      var key := SessionKey(token);
      var e := s.cache[key].entry;
      var r := CheckAuthStep(s, header, now, calls);
      && r.outcome == Authenticated(e.email, token, Some(ExpiresIn(e.sessionExpires, now)))
      && r.state.cache == s.cache[key := Slot(e.(lastAccessed := now), now + SESSION_TTL_MS)]
      && r.state.user == s.user
  {
  }

  /**
   * At the instant `sessionExpires == now` the two paths disagree: the cache entry is refused (and
   * deleted, see `ExpiredEntryDeleted`), and the account document, whose test is `sessionExpires < now`, accepts the session.
   */
  lemma ExpiryInstantBoundary(s: AuthState, header: Option<string>, now: int, calls: CheckCalls)
    requires calls.getOk && calls.delOk && calls.findOk
    requires CheckAuthToken(header, s.cookie).Some?
    requires var token := CheckAuthToken(header, s.cookie).value;
      && CacheGet(s.cache, SessionKey(token), now).Some?
      && CacheGet(s.cache, SessionKey(token), now).value.sessionExpires == now
      && s.user.Some? && s.user.value.sessionToken == Some(token) && s.user.value.sessionExpires == Some(now)
    ensures var token := CheckAuthToken(header, s.cookie).value;
      CheckAuthStep(s, header, now, calls).outcome == Authenticated(s.user.value.email, token, None)
  {
  }

  /**
   * An entry whose `sessionExpires` has passed is deleted and the account document decides, on the
   * store without that entry; unless the document's session is live and the cache repair succeeds,
   * the key stays gone.
   */
  lemma ExpiredEntryDeleted(s: AuthState, header: Option<string>, now: int, calls: CheckCalls)
    requires calls.getOk && calls.delOk
    requires CheckAuthToken(header, s.cookie).Some?
    requires var key := SessionKey(CheckAuthToken(header, s.cookie).value);
      CacheGet(s.cache, key, now).Some? && CacheGet(s.cache, key, now).value.sessionExpires <= now
    ensures var token := CheckAuthToken(header, s.cookie).value;
      var r := CheckAuthStep(s, header, now, calls);
      && r == DurableCheck(s.(cache := CacheDel(s.cache, SessionKey(token))), token, now, calls)
      && (!(r.outcome.Authenticated? && calls.setexOk) ==> SessionKey(token) !in r.state.cache)
  {
  }

  /** A cache miss on a valid durable session heals the cache: the next check is answered from it. */
  lemma {:induction false} CacheMissHeals(s: AuthState, header: Option<string>, now: int, calls: CheckCalls,
                                          later: int, laterCalls: CheckCalls)
    requires calls.getOk && calls.findOk && calls.setexOk && laterCalls.getOk
    requires CheckAuthToken(header, s.cookie).Some?
    requires var token := CheckAuthToken(header, s.cookie).value;
      && CacheGet(s.cache, SessionKey(token), now).None?
      && s.user.Some? && s.user.value.sessionToken == Some(token)
      && s.user.value.sessionExpires.Some? && now <= later < s.user.value.sessionExpires.value
      && later < now + SESSION_TTL_MS
    ensures var token := CheckAuthToken(header, s.cookie).value;
      var s1 := CheckAuthStep(s, header, now, calls).state;
      var r := CheckAuthStep(s1, header, later, laterCalls);
      && CheckAuthStep(s, header, now, calls).outcome == Authenticated(s.user.value.email, token, None)
      && r.outcome == Authenticated(s.user.value.email, token,
                                    Some(ExpiresIn(s.user.value.sessionExpires.value, later)))
  {
    var token := CheckAuthToken(header, s.cookie).value;
    var key := SessionKey(token);
    var s1 := CheckAuthStep(s, header, now, calls).state;
    assert s1.cache == CacheSet(s.cache, key, RepairedEntry(s.user.value, now), now);
    assert CacheGet(s1.cache, key, later) == Some(RepairedEntry(s.user.value, now));
  }

  /** A stale durable session (not in the cache) is refused and its fields are unset. */
  lemma StaleDurableCleared(s: AuthState, header: Option<string>, now: int, calls: CheckCalls)
    requires calls.getOk && calls.findOk && calls.unsetOk
    requires CheckAuthToken(header, s.cookie).Some?
    requires var token := CheckAuthToken(header, s.cookie).value;
      && CacheGet(s.cache, SessionKey(token), now).None?
      && s.user.Some? && s.user.value.sessionToken == Some(token)
      && (s.user.value.sessionExpires.None? || s.user.value.sessionExpires.value < now)
    ensures var r := CheckAuthStep(s, header, now, calls);
      && r.outcome == SessionExpired
      && r.state.user == Some(ClearSession(s.user.value))
      && r.state.cache == s.cache
  {
  }

  /** Delete the cache key and unset the matching account's session fields. */
  function Revoke(s: AuthState, token: string): (r: AuthState)
    ensures SessionKey(token) !in r.cache
    ensures r.user == ClearSessionOf(s.user, token)
    ensures r.user.Some? ==> r.user.value.sessionToken != Some(token)
    ensures r.cookie == s.cookie && r.outbox == s.outbox
    ensures forall k :: k in r.cache <==> k in s.cache && k != SessionKey(token)
  {
    s.(cache := CacheDel(s.cache, SessionKey(token)), user := ClearSessionOf(s.user, token))
  }

  /** What `revokeSession` reports: "Session revoked", or "Failed to revoke session" when a store call throws. */
  datatype RevokeOutcome = SessionRevoked | RevokeFailed

  /**
   * The two writes of a revocation with their verdicts: the cache delete, then the account unset.
   * A failed delete changes nothing; a failed unset leaves only the delete done.
   */
  function TryRevoke(s: AuthState, token: string, delOk: bool, unsetOk: bool): (r: Step<RevokeOutcome>)
    ensures r.outcome == SessionRevoked <==> delOk && unsetOk
    ensures r.outcome == SessionRevoked ==> r.state == Revoke(s, token)
    ensures !delOk ==> r.state == s
    ensures delOk && !unsetOk ==> r.state == Revoke(s, token).(user := s.user)
    ensures r.state.cookie == s.cookie && r.state.outbox == s.outbox
  {
    if !delOk then Step(s, RevokeFailed)
    else if !unsetOk then Step(s.(cache := CacheDel(s.cache, SessionKey(token))), RevokeFailed)
    else Step(Revoke(s, token), SessionRevoked)
  }

  /** `signOut` reports the token it used (possibly `""`), or "Sign out failed" when a store call throws. */
  datatype SignOutOutcome = SignedOut(token: string) | SignOutFailed

  /**
   * `signOut`: revoke the token if there is one, then delete the cookie. A revocation that throws
   * skips the cookie deletion.
   */
  function SignOutStep(s: AuthState, header: Option<string>, delOk: bool, unsetOk: bool): (r: Step<SignOutOutcome>)
    ensures r.outcome.SignedOut? ==> r.outcome.token == SignOutToken(s.cookie, header) && r.state.cookie.None?
    ensures r.outcome == SignOutFailed <==> SignOutToken(s.cookie, header) != "" && !(delOk && unsetOk)
    ensures r.outcome == SignOutFailed ==> r.state.cookie == s.cookie && r.state.user == s.user
    ensures SignOutToken(s.cookie, header) == "" ==> r == Step(s.(cookie := None), SignedOut(""))
    ensures r.outcome.SignedOut? && r.outcome.token != "" ==> r.state == Revoke(s, r.outcome.token).(cookie := None)
  {
    var token := SignOutToken(s.cookie, header);
    if token == "" then Step(s.(cookie := None), SignedOut(""))
    else
      var revoked := TryRevoke(s, token, delOk, unsetOk);
      if revoked.outcome == RevokeFailed then Step(revoked.state, SignOutFailed)
      else Step(revoked.state.(cookie := None), SignedOut(token))
  }

  method SignOut(st: Stores, header: Option<string>, delOk: bool, unsetOk: bool) returns (o: SignOutOutcome)
    modifies st
    ensures st.State() == SignOutStep(old(st.State()), header, delOk, unsetOk).state
    ensures o == SignOutStep(old(st.State()), header, delOk, unsetOk).outcome
  {
    var token := SignOutToken(st.cookie, header);
    if token != "" {
      var revoked := RevokeSession(st, token, delOk, unsetOk);
      if revoked == RevokeFailed {
        return SignOutFailed;
      }
    }
    st.cookie := None;
    o := SignedOut(token);
  }

  /** Revoking twice is revoking once. */
  lemma RevokeIdempotent(s: AuthState, token: string)
    ensures Revoke(Revoke(s, token), token) == Revoke(s, token)
  {
  }

  /**
   * Signing out twice with the same request is harmless whenever the first call took its token
   * from the header (or had none) and its writes went through: the second call finds no cookie
   * and repeats a no-op revocation.
   */
  lemma SignOutTwice(s: AuthState, header: Option<string>)
    requires SignOutToken(s.cookie, header) == BearerToken(header)
    ensures var once := SignOutStep(s, header, true, true);
      SignOutStep(once.state, header, true, true) == once
  {
    RevokeIdempotent(s, BearerToken(header));
  }

  /** After a revocation, presenting the revoked token is refused and touches nothing. */
  lemma RevokedTokenRefused(s: AuthState, token: string, now: int, calls: CheckCalls)
    requires calls.getOk && calls.findOk
    requires token != "" && ' ' !in token
    ensures var r := CheckAuthStep(Revoke(s, token), Some("Bearer " + token), now, calls);
      r == Step(Revoke(s, token), SessionExpired)
  {
    BearerTokenOf("Bearer", token);
    assert "Bearer" + " " + token == "Bearer " + token;
  }

  /** `revokeSession`: the cache delete, then the account unset, each of which may throw. */
  method RevokeSession(st: Stores, token: string, delOk: bool, unsetOk: bool) returns (o: RevokeOutcome)
    modifies st
    ensures (st.State(), o) == (TryRevoke(old(st.State()), token, delOk, unsetOk).state,
                                TryRevoke(old(st.State()), token, delOk, unsetOk).outcome)
  {
    if !delOk {
      return RevokeFailed;
    }
    st.cache := CacheDel(st.cache, SessionKey(token));
    if !unsetOk {
      return RevokeFailed;
    }
    st.user := ClearSessionOf(st.user, token);
    o := SessionRevoked;
  }

  /** `getSessionData`: a read of the cache, which it never changes. */
  method GetSessionData(st: Stores, token: string, now: int) returns (e: Option<SessionEntry>)
    ensures e.Some? <==> SessionKey(token) in st.cache && now < st.cache[SessionKey(token)].dropAt
    ensures e.Some? ==> e.value == st.cache[SessionKey(token)].entry
  {
    e := CacheGet(st.cache, SessionKey(token), now);
  }

  /** Redis TTL: the time the key has left, rounded to whole seconds. */
  function TtlSeconds(slot: Slot, now: int): int {
    (slot.dropAt - now + 500) / 1000
  }

  /** `verifySessionStorage`: the key exists and its TTL is positive. */
  function SessionStored(cache: map<string, Slot>, token: string, now: int): (ok: bool)
    ensures ok <==> SessionKey(token) in cache && now + 500 <= cache[SessionKey(token)].dropAt
  {
    var key := SessionKey(token);
    CacheGet(cache, key, now).Some? && TtlSeconds(cache[key], now) > 0
  }

  /** A successful login leaves a stored session for the returned token and authenticates it for seven days. */
  lemma {:induction false} LoginThenCheck(s: AuthState, input: string, tokenBytes: seq<OtpActions.Byte>, ip: string,
                                         userAgent: string, now: int, header: Option<string>, later: int,
                                         calls: CheckCalls)
    requires calls.getOk
    requires |tokenBytes| == OtpActions.TOKEN_BYTES
    requires OtpActions.VerifyOtpStep(s, input, tokenBytes, ip, userAgent, now, true, true, true).outcome.Verified?
    requires BearerToken(header) == "" || BearerToken(header) == OtpActions.Hex(tokenBytes)
    requires now <= later < now + SESSION_TTL_MS
    ensures var login := OtpActions.VerifyOtpStep(s, input, tokenBytes, ip, userAgent, now, true, true, true);
      var token := login.outcome.token;
      && SessionStored(login.state.cache, token, now)
      && CheckAuthStep(login.state, header, later, calls).outcome
         == Authenticated(s.user.value.email, token, Some(ExpiresIn(now + SESSION_TTL_MS, later)))
  {
    var login := OtpActions.VerifyOtpStep(s, input, tokenBytes, ip, userAgent, now, true, true, true);
    var token := OtpActions.Hex(tokenBytes);
    var entry := OtpActions.NewSessionEntry(s.user.value, now + SESSION_TTL_MS, ip, userAgent, now);
    assert login.state.cache == CacheSet(s.cache, SessionKey(token), entry, now);
    assert CheckAuthToken(header, login.state.cookie) == Some(token);
    assert CacheGet(login.state.cache, SessionKey(token), later) == Some(entry);
  }
}

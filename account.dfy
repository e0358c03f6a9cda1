/**
 * The state the one-time-code login works on: the durable account document (`models/User.ts`),
 * the session cache (Redis keys `session:<token>` with a time-to-live), the browser's `session`
 * cookie and the mail handed to the mailer. Times are integer milliseconds since the epoch.
 */
module Account {
  import opened Wrappers
  import opened Text
  import opened Mailer

  const SESSION_PREFIX: string := "session:"
  /** Seven days, in seconds: the cache time-to-live, the cookie max-age and the session length. */
  const SESSION_TTL: nat := 7 * 24 * 60 * 60
  const SESSION_TTL_MS: nat := SESSION_TTL * 1000

  /** The account document. Absent optional fields are `None`; the source's `""` email is "no email". */
  datatype User = User(
    id: string,
    email: string,
    firstName: Option<string>,
    lastName: Option<string>,
    bio: Option<string>,
    avatar: Option<string>,
    otp: Option<string>,
    otpExpires: Option<int>,
    sessionToken: Option<string>,
    sessionExpires: Option<int>)

  /** A code and its expiry are written and unset together; so are a session token and its expiry. */
  predicate FieldsPaired(u: User) {
    u.otp.Some? == u.otpExpires.Some? && u.sessionToken.Some? == u.sessionExpires.Some?
  }

  predicate PairedAccount(user: Option<User>) {
    user.Some? ==> FieldsPaired(user.value)
  }

  /** The cached snapshot of a session (the source's `RedisSession`), times in milliseconds. */
  datatype SessionEntry = SessionEntry(
    userId: string,
    email: string,
    firstName: string,
    lastName: string,
    bio: string,
    avatar: Option<string>,
    sessionExpires: int,
    ip: string,
    userAgent: string,
    createdAt: int,
    lastAccessed: int,
    refreshedAt: Option<int>)

  /** A cache value and the instant at which the cache drops its key (write time plus the TTL). */
  datatype Slot = Slot(entry: SessionEntry, dropAt: int)

  /**
   * The parsed `session` cookie: `{token: "<string>"}`; a `token` that is a non-zero number or
   * `true`, carried as its string form `text`; or anything else (bad JSON, a missing or falsy
   * token).
   */
  datatype CookieValue = TokenCookie(token: string) | ScalarToken(text: string) | OtherCookie

  function SessionKey(token: string): (key: string)
    ensures |key| == |SESSION_PREFIX| + |token|
    ensures key[..|SESSION_PREFIX|] == SESSION_PREFIX && key[|SESSION_PREFIX|..] == token
  {
    SESSION_PREFIX + token
  }

  /** Distinct tokens never share a cache key. */
  lemma SessionKeyInjective(t1: string, t2: string)
    ensures SessionKey(t1) == SessionKey(t2) <==> t1 == t2
  {
    if SessionKey(t1) == SessionKey(t2) {
      assert t1 == SessionKey(t1)[|SESSION_PREFIX|..];
    }
  }

  /** Redis GET: a key is visible while its time-to-live has not run out. */
  function CacheGet(cache: map<string, Slot>, key: string, now: int): (r: Option<SessionEntry>)
    ensures r.Some? <==> key in cache && now < cache[key].dropAt
    ensures r.Some? ==> r.value == cache[key].entry
  {
    if key in cache && now < cache[key].dropAt then Some(cache[key].entry) else None
  }

  /** Redis SETEX with the session TTL: the key is (re)written and lives seven more days. */
  function CacheSet(cache: map<string, Slot>, key: string, e: SessionEntry, now: int): (c: map<string, Slot>)
    ensures CacheGet(c, key, now) == Some(e)
    ensures forall k :: k != key ==> CacheGet(c, k, now) == CacheGet(cache, k, now)
  {
    cache[key := Slot(e, now + SESSION_TTL_MS)]
  }

  /** Redis DEL: deleting a missing key is not an error. */
  function CacheDel(cache: map<string, Slot>, key: string): (c: map<string, Slot>)
    ensures key !in c && CacheGet(c, key, 0) == None
    ensures forall k :: k in c <==> k in cache && k != key
    ensures forall k :: k in c ==> c[k] == cache[k]
  {
    cache - {key}
  }

  /** Everything the login and session operations read or write. */
  datatype AuthState = AuthState(
    user: Option<User>,
    cache: map<string, Slot>,
    cookie: Option<CookieValue>,
    outbox: seq<Mail>)

  /** An operation's new state together with what it reports. */
  datatype Step<O> = Step(state: AuthState, outcome: O)

  /** `$unset: {sessionToken, sessionExpires}`. */
  function ClearSession(u: User): (v: User)
    ensures v.sessionToken.None? && v.sessionExpires.None?
    ensures v.id == u.id && v.email == u.email && v.firstName == u.firstName && v.lastName == u.lastName
    ensures v.bio == u.bio && v.avatar == u.avatar && v.otp == u.otp && v.otpExpires == u.otpExpires
  {
    u.(sessionToken := None, sessionExpires := None)
  }

  /** `User.updateOne({sessionToken: token}, {$unset: ...})` on the single account. */
  function ClearSessionOf(user: Option<User>, token: string): (r: Option<User>)
    ensures r.Some? == user.Some?
    ensures r.Some? ==> r.value.sessionToken != Some(token)
    ensures user.Some? && user.value.sessionToken == Some(token) ==> r.value.sessionExpires.None?
    ensures user.Some? && user.value.sessionToken != Some(token) ==> r == user
    ensures r.Some? ==>
      var u, v := user.value, r.value;
      && v.id == u.id && v.email == u.email && v.firstName == u.firstName && v.lastName == u.lastName
      && v.bio == u.bio && v.avatar == u.avatar && v.otp == u.otp && v.otpExpires == u.otpExpires
  {
    if user.Some? && user.value.sessionToken == Some(token) then Some(ClearSession(user.value)) else user
  }

  /** The source's `s || null` on an optional string: the empty string counts as absent. */
  function NonEmpty(o: Option<string>): (r: Option<string>)
    ensures r.Some? <==> o.Some? && o.value != ""
    ensures r.Some? ==> r == o
  {
    if o.Some? && o.value != "" then o else None
  }

  /**
   * The stores themselves. The single account document stands for the source's `findOne({})`
   * and for every lookup by `otp` or `sessionToken`, which can only ever match that document.
   */
  class Stores {
    var user: Option<User>
    var cache: map<string, Slot>
    var cookie: Option<CookieValue>
    var outbox: seq<Mail>

    function State(): AuthState
      reads this
    {
      AuthState(user, cache, cookie, outbox)
    }
  }
}

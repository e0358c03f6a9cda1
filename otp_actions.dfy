/**
 * Issuing and verifying the one-time login code (action/otpActions.ts): the rate gate, code
 * generation from random bytes, the five-minute expiry, and minting a seven-day session that is
 * written to the cache first and to the account document second.
 */
module OtpActions {
  import opened Wrappers
  import opened Text
  import opened Mailer
  import opened Account

  /** The code alphabet: upper-case letters and digits without the look-alikes 0, 1, I and O. */
  const OTP_CHARS: string := "ABCDEFGHJKLMNPQRSTUVWXYZ23456789"
  const OTP_BYTES: nat := 6
  const OTP_EXPIRY_MINUTES: nat := 5
  const OTP_EXPIRY_MS: nat := OTP_EXPIRY_MINUTES * 60 * 1000
  const OTP_RATE_LIMIT: nat := 5
  const TOKEN_BYTES: nat := 32

  type Byte = b: int | 0 <= b < 256

  /** The position of an alphabet character in `OTP_CHARS`, computed from its code point. */
  function AlphabetIndex(c: char): int {
    if 'A' <= c <= 'H' then c as int - 'A' as int
    else if 'J' <= c <= 'N' then c as int - 'A' as int - 1
    else if 'P' <= c <= 'Z' then c as int - 'A' as int - 2
    else c as int - '2' as int + 24
  }

  lemma AlphabetIndexInverse()
    ensures |OTP_CHARS| == 32
    ensures forall k :: 0 <= k < 32 ==> AlphabetIndex(OTP_CHARS[k]) == k
  {
  }

  /** 32 distinct upper-case letters and digits, none of them a look-alike. */
  lemma AlphabetShape()
    ensures |OTP_CHARS| == 32
    ensures forall i, j :: 0 <= i < j < |OTP_CHARS| ==> OTP_CHARS[i] != OTP_CHARS[j]
    ensures forall i :: 0 <= i < |OTP_CHARS| ==> IsUpperAscii(OTP_CHARS[i]) || IsDigit(OTP_CHARS[i])
    ensures '0' !in OTP_CHARS && '1' !in OTP_CHARS && 'I' !in OTP_CHARS && 'O' !in OTP_CHARS
  {
    AlphabetIndexInverse();
  }

  /** One random byte picks the character at `b % 32`. */
  function OtpChar(b: Byte): (c: char)
    ensures c in OTP_CHARS
  {
    OTP_CHARS[b % |OTP_CHARS|]
  }

  /** The code built from `randomBytes(6)`: one alphabet character per byte. */
  function GenerateOtp(bytes: seq<Byte>): (code: string)
    ensures |code| == |bytes|
    ensures forall i :: 0 <= i < |code| ==> code[i] in OTP_CHARS
    ensures NoSpace(code) && NoLowerAscii(code)
  {
    AlphabetShape();
    seq(|bytes|, i requires 0 <= i < |bytes| => OtpChar(bytes[i]))
  }

  /** How many of the byte values `0 .. n-1` produce the character `c`. */
  function Hits(c: char, n: nat): nat
    requires n <= 256
  {
    if n == 0 then 0 else Hits(c, n - 1) + (if OTP_CHARS[(n - 1) % 32] == c then 1 else 0)
  }

  /** Below `n`, the byte values hitting the `k`-th character are the `b` with `b % 32 == k`. */
  lemma {:induction false} HitsFormula(k: nat, n: nat)
    requires k < 32 && n <= 256
    ensures Hits(OTP_CHARS[k], n) == n / 32 + (if n % 32 > k then 1 else 0)
  {
    AlphabetShape();
    if n > 0 {
      HitsFormula(k, n - 1);
    }
  }

  /** Every alphabet character is produced by exactly 8 of the 256 byte values: no character is favoured. */
  lemma UniformAlphabet(c: char)
    requires c in OTP_CHARS
    ensures Hits(c, 256) == 8
  {
    AlphabetShape();
    var k :| 0 <= k < |OTP_CHARS| && OTP_CHARS[k] == c;
    HitsFormula(k, 256);
  }

  /** The submitted code is upper-cased and stripped of every whitespace character. */
  function NormalizeOtp(input: string): (code: string)
    ensures NoSpace(code) && NoLowerAscii(code)
    ensures |code| <= |input|
  {
    StripSpace(Upper(input))
  }

  lemma NormalizeOtpIdempotent(input: string)
    ensures NormalizeOtp(NormalizeOtp(input)) == NormalizeOtp(input)
  {
    var code := NormalizeOtp(input);
    UpperFixesNoLower(code);
  }

  /** A code typed as mailed, or typed in lower case, normalises back to the mailed code. */
  lemma NormalizeGenerated(bytes: seq<Byte>)
    ensures NormalizeOtp(GenerateOtp(bytes)) == GenerateOtp(bytes)
    ensures NormalizeOtp(Lower(GenerateOtp(bytes))) == GenerateOtp(bytes)
  {
    var code := GenerateOtp(bytes);
    UpperFixesNoLower(code);
  }

  predicate IsLowerHex(c: char) {
    IsDigit(c) || 'a' <= c <= 'f'
  }

  function HexDigit(d: nat): (c: char)
    requires d < 16
    ensures IsLowerHex(c) && HexValue(c) == d
  {
    if d < 10 then ('0' as int + d) as char else ('a' as int + d - 10) as char
  }

  function HexValue(c: char): (d: nat)
    requires IsLowerHex(c)
    ensures d < 16
  {
    if IsDigit(c) then c as int - '0' as int else c as int - 'a' as int + 10
  }

  /** `Buffer.toString("hex")`: two lower-case hexadecimal digits per byte, high nibble first. */
  function Hex(bytes: seq<Byte>): (h: string)
    ensures |h| == 2 * |bytes|
    ensures forall i :: 0 <= i < |h| ==> IsLowerHex(h[i])
  {
    if bytes == [] then [] else [HexDigit(bytes[0] / 16), HexDigit(bytes[0] % 16)] + Hex(bytes[1..])
  }

  /** Reading a hexadecimal string back into bytes. */
  function Unhex(h: string): (bytes: seq<Byte>)
    requires |h| % 2 == 0
    requires forall i :: 0 <= i < |h| ==> IsLowerHex(h[i])
    ensures |bytes| == |h| / 2
  {
    if h == [] then [] else [HexValue(h[0]) * 16 + HexValue(h[1])] + Unhex(h[2..])
  }

  /** The hexadecimal token loses nothing: distinct random bytes give distinct tokens. */
  lemma {:induction false} UnhexHex(bytes: seq<Byte>)
    ensures Unhex(Hex(bytes)) == bytes
  {
    if bytes != [] {
      var h := Hex(bytes);
      assert h[2..] == Hex(bytes[1..]);
      UnhexHex(bytes[1..]);
    }
  }

  lemma HexInjective(b1: seq<Byte>, b2: seq<Byte>)
    ensures Hex(b1) == Hex(b2) <==> b1 == b2
  {
    if Hex(b1) == Hex(b2) {
      UnhexHex(b1);
      UnhexHex(b2);
    }
  }

  /** The rate limiter's answer for the client's IP: allowed or not, attempts left, window reset time. */
  datatype RateVerdict = RateVerdict(success: bool, remaining: int, reset: int)

  /** `Math.floor((reset - now) / 1000)`: whole seconds until the window resets. */
  function RetryAfter(reset: int, now: int): (secs: int)
    ensures secs * 1000 <= reset - now < secs * 1000 + 1000
  {
    (reset - now) / 1000
  }

  /**
   * What `sendOtp` reports: "Too many attempts…", "No user found", "No email associated with
   * user", "OTP sent successfully", or "Failed to send OTP" when storing the code throws.
   */
  datatype SendOtpOutcome = RateLimited(retryAfter: int) | NoUser | NoEmail | Sent(remainingAttempts: int) | SendFailed

  function OtpMail(to: string, code: string, remaining: int): (m: Mail)
    ensures m.to == to && m.body.OtpCode? && m.body.code == code
  {
    Mail(to, "Your Access Code", OtpCode(code, OTP_EXPIRY_MINUTES, remaining, OTP_RATE_LIMIT))
  }

  /** `findOneAndUpdate({email}, {otp, otpExpires})`: any earlier pending code is overwritten. */
  function IssueOtp(u: User, code: string, now: int): (v: User)
    ensures v.otp == Some(code) && v.otpExpires == Some(now + OTP_EXPIRY_MS)
    ensures v.sessionToken == u.sessionToken && v.sessionExpires == u.sessionExpires
    ensures v.email == u.email && v.id == u.id
  {
    u.(otp := Some(code), otpExpires := Some(now + OTP_EXPIRY_MS))
  }

  /**
   * `sendOtp`. `saveOk` is the verdict of the write that stores the code; when it throws, no mail
   * goes out. The mailer's result is not looked at: the code is reported sent either way.
   */
  function SendOtpStep(s: AuthState, verdict: RateVerdict, bytes: seq<Byte>, now: int, saveOk: bool): (r: Step<SendOtpOutcome>)
    requires |bytes| == OTP_BYTES
    ensures !verdict.success ==> r == Step(s, RateLimited(RetryAfter(verdict.reset, now)))
    ensures r.outcome.Sent? <==> verdict.success && s.user.Some? && s.user.value.email != "" && saveOk
    ensures verdict.success && s.user.Some? && s.user.value.email != "" && !saveOk ==> r == Step(s, SendFailed)
    ensures verdict.success && s.user.None? ==> r == Step(s, NoUser)
    ensures verdict.success && s.user.Some? && s.user.value.email == "" ==> r == Step(s, NoEmail)
    ensures r.outcome.Sent? ==>
      var code := GenerateOtp(bytes);
      && |code| == 6
      && r.outcome.remainingAttempts == verdict.remaining - 1
      && r.state.user == Some(IssueOtp(s.user.value, code, now))
      && r.state.outbox == s.outbox + [OtpMail(s.user.value.email, code, verdict.remaining - 1)]
      && r.state.cache == s.cache && r.state.cookie == s.cookie
    ensures PairedAccount(s.user) ==> PairedAccount(r.state.user)
  {
    if !verdict.success then Step(s, RateLimited(RetryAfter(verdict.reset, now)))
    else if s.user.None? then Step(s, NoUser)
    else if s.user.value.email == "" then Step(s, NoEmail)
    else if !saveOk then Step(s, SendFailed)
    else
      var u := s.user.value;
      var code := GenerateOtp(bytes);
      var remaining := verdict.remaining - 1;
      Step(s.(user := Some(IssueOtp(u, code, now)), outbox := s.outbox + [OtpMail(u.email, code, remaining)]),
           Sent(remaining))
  }

  method SendOtp(st: Stores, verdict: RateVerdict, bytes: seq<Byte>, now: int, saveOk: bool) returns (o: SendOtpOutcome)
    requires |bytes| == OTP_BYTES
    modifies st
    ensures st.State() == SendOtpStep(old(st.State()), verdict, bytes, now, saveOk).state
    ensures o == SendOtpStep(old(st.State()), verdict, bytes, now, saveOk).outcome
  {
    if !verdict.success {
      return RateLimited(RetryAfter(verdict.reset, now));
    }
    if st.user.None? {
      return NoUser;
    }
    var u := st.user.value;
    if u.email == "" {
      return NoEmail;
    }
    if !saveOk {
      return SendFailed;
    }
    var code := GenerateOtp(bytes);
    st.user := Some(IssueOtp(u, code, now));
    st.outbox := st.outbox + [OtpMail(u.email, code, verdict.remaining - 1)];
    o := Sent(verdict.remaining - 1);
  }

  /** What `verifyOtp` reports: "Invalid OTP", "OTP expired", success with the token, "Verification failed". */
  datatype VerifyOutcome = InvalidOtp | OtpExpired | Verified(token: string) | VerificationFailed

  /** `findOne({otp})`: the account holds exactly this pending code. */
  predicate CodeMatches(user: Option<User>, code: string) {
    user.Some? && user.value.otp == Some(code)
  }

  /** The cache entry written at login: missing profile text becomes `""`, a missing avatar `null`. */
  function NewSessionEntry(u: User, expires: int, ip: string, userAgent: string, now: int): (e: SessionEntry)
    ensures e.userId == u.id && e.email == u.email && e.sessionExpires == expires
    ensures e.firstName == u.firstName.GetOr("") && e.avatar == NonEmpty(u.avatar)
    ensures e.createdAt == now && e.lastAccessed == now && e.refreshedAt.None?
  {
    SessionEntry(u.id, u.email, u.firstName.GetOr(""), u.lastName.GetOr(""), u.bio.GetOr(""),
                 NonEmpty(u.avatar), expires, ip, userAgent, now, now, None)
  }

  /** `$unset: {otp, otpExpires}`. */
  function ClearOtp(u: User): (v: User)
    ensures v.otp.None? && v.otpExpires.None?
    ensures v.sessionToken == u.sessionToken && v.sessionExpires == u.sessionExpires && v.email == u.email
  {
    u.(otp := None, otpExpires := None)
  }

  /** The durable login write: the code is consumed and the session recorded. */
  function StartSession(u: User, token: string, expires: int): (v: User)
    ensures v.otp.None? && v.otpExpires.None?
    ensures v.sessionToken == Some(token) && v.sessionExpires == Some(expires)
    ensures v.email == u.email && v.id == u.id && v.avatar == u.avatar
  {
    u.(otp := None, otpExpires := None, sessionToken := Some(token), sessionExpires := Some(expires))
  }

  /**
   * Minting the session once the code has been accepted: the cache write comes first and a
   * failed one aborts; a failed durable write leaves the cache entry behind; the cookie is set last.
   */
  function MintSession(s: AuthState, tokenBytes: seq<Byte>, ip: string, userAgent: string, now: int,
                       cacheOk: bool, dbOk: bool): (r: Step<VerifyOutcome>)
    requires s.user.Some? && |tokenBytes| == TOKEN_BYTES
    ensures r.outcome.Verified? <==> cacheOk && dbOk
    ensures !cacheOk ==> r == Step(s, VerificationFailed)
    ensures cacheOk && !dbOk ==>
      var token := Hex(tokenBytes);
      var entry := NewSessionEntry(s.user.value, now + SESSION_TTL_MS, ip, userAgent, now);
      && r.state.user == s.user && r.state.cookie == s.cookie
      && r.state.cache == CacheSet(s.cache, SessionKey(token), entry, now)
      && CacheGet(r.state.cache, SessionKey(token), now) == Some(entry)
    ensures r.outcome.Verified? ==>
      var token := Hex(tokenBytes);
      var expires := now + SESSION_TTL_MS;
      && r.outcome.token == token && |token| == 64
      && r.state.user == Some(StartSession(s.user.value, token, expires))
      && CacheGet(r.state.cache, SessionKey(token), now) == Some(NewSessionEntry(s.user.value, expires, ip, userAgent, now))
      && r.state.cookie == Some(TokenCookie(token))
    ensures r.state.outbox == s.outbox
    ensures PairedAccount(s.user) ==> PairedAccount(r.state.user)
  {
    var u := s.user.value;
    var token := Hex(tokenBytes);
    var expires := now + SESSION_TTL_MS;
    if !cacheOk then Step(s, VerificationFailed)
    else
      var cache := CacheSet(s.cache, SessionKey(token), NewSessionEntry(u, expires, ip, userAgent, now), now);
      if !dbOk then Step(s.(cache := cache), VerificationFailed)
      else Step(s.(user := Some(StartSession(u, token, expires)), cache := cache, cookie := Some(TokenCookie(token))),
                Verified(token))
  }

  /**
   * `verifyOtp` as intended: a code is refused as expired iff `otpExpires < now`; a code presented
   * at exactly `otpExpires`, or one without an expiry, is accepted. `unsetOk` is the verdict of
   * the write that clears an expired code; when it throws, nothing changes and the catch answers.
   */
  function VerifyOtpStep(s: AuthState, input: string, tokenBytes: seq<Byte>, ip: string, userAgent: string,
                         now: int, unsetOk: bool, cacheOk: bool, dbOk: bool): (r: Step<VerifyOutcome>)
    requires |tokenBytes| == TOKEN_BYTES
    ensures !CodeMatches(s.user, NormalizeOtp(input)) <==> r.outcome == InvalidOtp
    ensures r.outcome == InvalidOtp ==> r.state == s
    ensures r.outcome == OtpExpired <==>
      CodeMatches(s.user, NormalizeOtp(input)) && s.user.value.otpExpires.Some? && s.user.value.otpExpires.value < now
      && unsetOk
    ensures r.outcome == OtpExpired ==> r.state == s.(user := Some(ClearOtp(s.user.value)))
    ensures && CodeMatches(s.user, NormalizeOtp(input)) && s.user.value.otpExpires.Some?
            && s.user.value.otpExpires.value < now && !unsetOk
            ==> r == Step(s, VerificationFailed)
    ensures r.outcome.Verified? <==>
      && CodeMatches(s.user, NormalizeOtp(input))
      && (s.user.value.otpExpires.None? || now <= s.user.value.otpExpires.value)
      && cacheOk && dbOk
    ensures r.outcome.Verified? ==>
      r.state.user.Some? && r.state.user.value.otp.None? && r.state.user.value.sessionToken == Some(r.outcome.token)
    ensures PairedAccount(s.user) ==> PairedAccount(r.state.user)
  {
    var code := NormalizeOtp(input);
    if !CodeMatches(s.user, code) then Step(s, InvalidOtp)
    else
      var u := s.user.value;
      if u.otpExpires.Some? && u.otpExpires.value < now then
        if !unsetOk then Step(s, VerificationFailed) else Step(s.(user := Some(ClearOtp(u))), OtpExpired)
      else MintSession(s, tokenBytes, ip, userAgent, now, cacheOk, dbOk)
  }

  /**
   * `verifyOtp` as written: the account is fetched with the projection `_id email firstName lastName
   * bio avatar`, so `otpExpires` is never loaded and the expiry test can never fire.
   */
  function VerifyOtpAsWritten(s: AuthState, input: string, tokenBytes: seq<Byte>, ip: string, userAgent: string,
                              now: int, cacheOk: bool, dbOk: bool): (r: Step<VerifyOutcome>)
    requires |tokenBytes| == TOKEN_BYTES
    ensures r.outcome != OtpExpired
    ensures r.outcome.Verified? <==> CodeMatches(s.user, NormalizeOtp(input)) && cacheOk && dbOk
  {
    var code := NormalizeOtp(input);
    var loaded := if s.user.Some? then Some(s.user.value.(otpExpires := None)) else None;
    if !CodeMatches(loaded, code) then Step(s, InvalidOtp)
    else MintSession(s, tokenBytes, ip, userAgent, now, cacheOk, dbOk)
  }

  /** The projection lets a code through however long ago it expired; the intended check refuses it. */
  lemma ExpiredCodeAcceptedAsWritten(s: AuthState, input: string, tokenBytes: seq<Byte>, ip: string,
                                     userAgent: string, now: int)
    requires |tokenBytes| == TOKEN_BYTES
    requires CodeMatches(s.user, NormalizeOtp(input))
    requires s.user.value.otpExpires.Some? && s.user.value.otpExpires.value < now
    ensures VerifyOtpAsWritten(s, input, tokenBytes, ip, userAgent, now, true, true).outcome.Verified?
    ensures VerifyOtpStep(s, input, tokenBytes, ip, userAgent, now, true, true, true).outcome == OtpExpired
  {
  }

  method VerifyOtp(st: Stores, input: string, tokenBytes: seq<Byte>, ip: string, userAgent: string,
                   now: int, unsetOk: bool, cacheOk: bool, dbOk: bool) returns (o: VerifyOutcome)
    requires |tokenBytes| == TOKEN_BYTES
    modifies st
    ensures st.State() == VerifyOtpStep(old(st.State()), input, tokenBytes, ip, userAgent, now, unsetOk, cacheOk, dbOk).state
    ensures o == VerifyOtpStep(old(st.State()), input, tokenBytes, ip, userAgent, now, unsetOk, cacheOk, dbOk).outcome
  {
    var code := NormalizeOtp(input);
    if !CodeMatches(st.user, code) {
      return InvalidOtp;
    }
    var u := st.user.value;
    if u.otpExpires.Some? && u.otpExpires.value < now {
      if !unsetOk {
        return VerificationFailed;
      }
      st.user := Some(ClearOtp(u));
      return OtpExpired;
    }
    var token := Hex(tokenBytes);
    var expires := now + SESSION_TTL_MS;
    if !cacheOk {
      return VerificationFailed;
    }
    st.cache := CacheSet(st.cache, SessionKey(token), NewSessionEntry(u, expires, ip, userAgent, now), now);
    if !dbOk {
      return VerificationFailed;
    }
    st.user := Some(StartSession(u, token, expires));
    st.cookie := Some(TokenCookie(token));
    o := Verified(token);
  }

  /** A freshly issued code, typed as mailed or in lower case, logs in up to and including its expiry instant. */
  lemma IssueThenVerify(s: AuthState, verdict: RateVerdict, bytes: seq<Byte>, t0: int,
                        typed: string, tokenBytes: seq<Byte>, ip: string, userAgent: string, t1: int)
    requires |bytes| == OTP_BYTES && |tokenBytes| == TOKEN_BYTES
    requires verdict.success && s.user.Some? && s.user.value.email != ""
    requires typed == GenerateOtp(bytes) || typed == Lower(GenerateOtp(bytes))
    ensures var issued := SendOtpStep(s, verdict, bytes, t0, true).state;
      var r := VerifyOtpStep(issued, typed, tokenBytes, ip, userAgent, t1, true, true, true);
      && (t1 <= t0 + OTP_EXPIRY_MS ==> r.outcome == Verified(Hex(tokenBytes)))
      && (t1 > t0 + OTP_EXPIRY_MS ==> r.outcome == OtpExpired)
  {
    NormalizeGenerated(bytes);
  }

  /** A code works once: after a login no code at all matches until a new one is issued. */
  lemma ReplayRejected(s: AuthState, input: string, tokenBytes: seq<Byte>, ip: string, userAgent: string,
                       now: int, later: string, tokenBytes2: seq<Byte>, ip2: string, userAgent2: string,
                       now2: int, unsetOk: bool, cacheOk: bool, dbOk: bool)
    requires |tokenBytes| == TOKEN_BYTES && |tokenBytes2| == TOKEN_BYTES
    requires VerifyOtpStep(s, input, tokenBytes, ip, userAgent, now, true, true, true).outcome.Verified?
    ensures var after := VerifyOtpStep(s, input, tokenBytes, ip, userAgent, now, true, true, true).state;
      VerifyOtpStep(after, later, tokenBytes2, ip2, userAgent2, now2, unsetOk, cacheOk, dbOk).outcome == InvalidOtp
  {
  }

  /** Issuing a new code voids the pending one (unless the two happen to coincide). */
  lemma NewCodeVoidsOld(s: AuthState, verdict: RateVerdict, bytes1: seq<Byte>, t1: int,
                        verdict2: RateVerdict, bytes2: seq<Byte>, t2: int,
                        tokenBytes: seq<Byte>, ip: string, userAgent: string, now: int,
                        unsetOk: bool, cacheOk: bool, dbOk: bool)
    requires |bytes1| == OTP_BYTES && |bytes2| == OTP_BYTES && |tokenBytes| == TOKEN_BYTES
    requires verdict.success && verdict2.success && s.user.Some? && s.user.value.email != ""
    requires GenerateOtp(bytes1) != GenerateOtp(bytes2)
    ensures var s1 := SendOtpStep(s, verdict, bytes1, t1, true).state;
      var s2 := SendOtpStep(s1, verdict2, bytes2, t2, true).state;
      VerifyOtpStep(s2, GenerateOtp(bytes1), tokenBytes, ip, userAgent, now, unsetOk, cacheOk, dbOk).outcome == InvalidOtp
  {
    NormalizeGenerated(bytes1);
  }
}

# A verified model of the esoy photography site's login, sessions and owner tools

The site belongs to one photographer. There is a single owner account and no password. The owner asks for a
six-character one-time code by email, types it back, and gets a session. The session is kept in two tiers:

- a cache entry under `session:<token>`, with a seven-day TTL;
- the token and its expiry on the account document itself.

`checkAuth` answers from the cache and heals a cache miss from the account document. Around this core sit the
owner's tools: promo codes, the newsletter and its subscribers, photo uploads and the gallery, categories, the
avatar, inquiry and booking mails, and the profile. Three dialogs of the settings and login screens are modelled as
well.

The model is written in Dafny. Each source file is one module:

| module | file | source |
|---|---|---|
| `Wrappers`, `Text`, `Sorting`, `Pattern`, `Files`, `ObjectId` | `wrappers.dfy`, `text.dfy`, `sorting.dfy`, `pattern.dfy`, `files.dfy`, `object_id.dfy` | JavaScript string and array operations, the `ObjectId` format, a regular-expression matcher for the contact-number pattern |
| `Mailer`, `Account` | `mailer.dfy`, `account.dfy` | the outbox, the account document (`models/User.ts`), the session cache and the cookie |
| `OtpActions` | `otp_actions.dfy` | `action/otpActions.ts` |
| `AuthActions` | `auth_actions.dfy` | `action/authActions.ts` |
| `PromoActions`, `PromoModal` | `promo_actions.dfy`, `promo_modal.dfy` | `action/promoCodeActions.ts`, `components/settings/PromoCodeManagementModal.tsx` |
| `Subscribers`, `NewsletterActions`, `NewsletterModal` | `subscriber.dfy`, `newsletter_actions.dfy`, `newsletter_modal.dfy` | `models/Subscriber.ts`, `action/newsletterActions.ts`, `components/settings/NewsletterModal.tsx` |
| `UploadRoute`, `PhotoActions`, `CategoryActions` | `upload_route.dfy`, `photo_actions.dfy`, `category_actions.dfy` | `app/api/upload/route.ts`, `action/photoActions.ts`, `action/categoryActions.ts` |
| `AvatarActions`, `EmailActions`, `UserActions` | `avatar_actions.dfy`, `email_actions.dfy`, `user_actions.dfy` | `action/avatarAction.ts`, `action/emailAction.ts`, `action/userAction.ts` |
| `LoginModal`, `UploadModal` | `login_modal.dfy`, `upload_modal.dfy` | `components/LoginModal.tsx`, `components/settings/UploadModal.tsx` |

The stores the server actions change are classes:

- `Account.Stores` holds the account document, the session cache, the cookie and the outbox.
- `PromoActions.PromoDb`, `Subscribers.SubscriberDb`, `PhotoActions.Gallery` and `AvatarActions.AvatarBucket` hold the other collections and buckets.

Each state-changing action is given twice:

- a pure step function from the old state and the inputs to the new state and the reply, about which the lemmas are proved;
- a method that performs the same steps on the stores, and whose `ensures` ties it to the step function.

The dialogs are classes too (`LoginModal.CodeDialog`, `UploadModal.UploadDialog`), with one method per event handler.

Every write to the database, the cache or the storage bucket that can throw or fail is a boolean "this call
succeeded" parameter, and each failure leads to the reply of the `catch` block (or the error branch) it reaches.
The two reads of `checkAuth` (the Redis GET of the session key and the `findOne` of the account) carry such a
flag as well, since their failure is the "Authentication error" reply; every other read is a value taken from
the stores, and its failure is not modelled (see "## Left out"). A mail's delivery is
a given result. Random bytes and random indices are parameters as well. The clock is an integer
number of milliseconds, read once per request.

Where the code and its documentation disagree, the model follows the code:

- The code alphabet has 32 characters. It leaves out 0, 1, I and O.
- As written, `verifyOtp` loads the account without `otpExpires`, so a matching code is accepted at any time (see "## Findings"). The corrected model, which loads it, still accepts a code at exactly `otpExpires`, because the test is `otpExpires < now`.
- `sendOtp` does not check the mailer's result, so it reports success even when the mail fails.
- The cache entry rebuilt from the account document has `createdAt` set to the current time.
- The avatar actions' session gate admits an account whose token has no expiry.
- The upload size limit is 50 MiB, in the route and in the dialog, although both error messages say 10MB.
- `remainingAttempts` is the limiter's `remaining` minus one. The limiter's `remaining` already counts the current request, so this is probably one too low. The model keeps the subtraction.
- `lastLogin`, `loginIp` and `updatedAt` are written with `$set` but are not fields of the `User` schema. Strict mode drops them, so the model does not store them.

## Model

| member | source | states |
|---|---|---|
| Account.SessionKeyInjective | action/authActions.ts:77-79 | two tokens share the cache key `session:<token>` only when they are equal |
| Account.CacheSet | action/authActions.ts:44-56 | after SETEX the key reads back the written session and every other key reads as before |
| Account.CacheDel | action/authActions.ts:111 | after DEL the key reads as missing; every other key is kept, with the same value, and no key is added |
| Account.ClearSession | action/authActions.ts:124-127 | `$unset` leaves the account without a token or an expiry and keeps its id, email, names, bio, avatar, pending code and code expiry |
| Account.ClearSessionOf | action/authActions.ts:124-127 | the account exists afterwards exactly when it did before and never holds the token; the holder loses its expiry as well; any other account is unchanged; no non-session field changes |
| AuthActions.BearerToken | action/authActions.ts:64-65 | the token is the word after the header's first space; it never contains a space, and a header without a space gives "" |
| AuthActions.BearerTokenOf | action/authActions.ts:64-65 | whatever scheme word comes first, `scheme + " " + token` yields that token |
| AuthActions.CookieToken | action/authActions.ts:223-241 | a token is read exactly when the cookie parses to an object with a string `token`, and it is that string |
| AuthActions.CheckAuthToken | action/authActions.ts:64-74 | a non-empty header token wins; the cookie's token is used only when the header gives none; the chosen token is never empty |
| AuthActions.SignOutToken | action/authActions.ts:172-188 | a non-empty cookie token wins, a numeric or `true` token in its string form included; the header's is used only when the cookie gives none |
| AuthActions.SignOutCookieToken | action/authActions.ts:172-181 | the cookie's token, or "" when it is falsy: a string token, the string form of a numeric or `true` token, and "" for anything else |
| AuthActions.ScalarTokenOnlySignsOut | action/authActions.ts:64-74 | a numeric cookie token, with no bearer header, gives `checkAuth` no token but is the token `signOut` revokes |
| AuthActions.TokenSourcesDiffer | action/authActions.ts:172-188 | with a cookie token and a header token, `checkAuth` acts on the header's and `signOut` on the cookie's |
| AuthActions.ExpiresIn | action/authActions.ts:103-106 | `expiresIn` in seconds is exactly the remaining milliseconds over 1000, positive while the session is live |
| AuthActions.RepairedEntry | action/authActions.ts:133-146 | the rebuilt cache entry carries the account's id, email and expiry, "unknown" client details and the current time in every timestamp |
| AuthActions.DurableCheck | action/authActions.ts:115-164 | a throwing `findOne` is "Authentication error" with nothing changed; otherwise the account document authenticates iff it holds the token with an expiry not before now; a stale match reports "Session expired" and unsets the session fields, or is "Authentication error" with nothing changed when the unset throws; an acceptance rewrites the cache entry when SETEX succeeds |
| AuthActions.CheckAuthStep | action/authActions.ts:61-164 | "No session token found" exactly when no token is chosen, and then nothing changes; a throwing GET is "Authentication error" with nothing changed, and that reply needs a throwing call; an authenticated result names the chosen token and a positive `expiresIn`; cookie and mail are untouched; token and expiry stay paired |
| AuthActions.CheckAuth | action/authActions.ts:61-164 | the stores end in `CheckAuthStep`'s new state and the result is its outcome |
| AuthActions.NoErrorWithoutThrow | action/authActions.ts:61-164 | when GET, DEL, `findOne` and the unset all succeed, `checkAuth` never reports "Authentication error" |
| AuthActions.CacheHitRefresh | action/authActions.ts:80-108 | when GET and SETEX succeed, a live cache hit authenticates from the entry, rewrites it with only `lastAccessed` changed and a fresh seven-day TTL, and leaves the account alone |
| AuthActions.ExpiryInstantBoundary | action/authActions.ts:83-121 | at `sessionExpires == now`, with GET, DEL and `findOne` succeeding, the cache entry is refused (`>` test) and the account document accepts (`<` test) |
| AuthActions.ExpiredEntryDeleted | action/authActions.ts:80-115 | with GET and DEL succeeding, a cached entry whose `sessionExpires` is not after now is deleted, and the result is exactly the account-document fallback run on the cache without it; the key stays gone unless that fallback authenticates and its cache repair succeeds |
| AuthActions.CacheMissHeals | action/authActions.ts:132-152 | when the reads and SETEX succeed, a cache miss on a live durable session authenticates and repopulates the cache, so a later check is answered from the cache with `expiresIn` |
| AuthActions.StaleDurableCleared | action/authActions.ts:121-130 | when the calls succeed, a stale or expiry-less durable session is refused, its session fields are unset and the cache is left as it was |
| AuthActions.Revoke | action/authActions.ts:190-199 | the cache key is gone and no other key is added or dropped; the account no longer holds the token; cookie and mail are kept |
| AuthActions.TryRevoke | action/authActions.ts:264-277 | "Session revoked" exactly when DEL and the unset both succeed, and then the state of `Revoke`; a throwing DEL changes nothing; a throwing unset leaves only the cache key deleted; cookie and mail are kept |
| AuthActions.SignOutStep | action/authActions.ts:169-217 | an empty token revokes nothing and deletes the cookie; otherwise "Signed out" with the token used exactly when DEL and the unset both succeed, the session revoked and the cookie deleted; a throwing call is "Sign out failed" with the cookie and the account kept |
| AuthActions.SignOut | action/authActions.ts:169-217 | the stores end in `SignOutStep`'s new state and the result is its outcome |
| AuthActions.RevokeIdempotent | action/authActions.ts:260-278 | revoking a token twice is the same as revoking it once |
| AuthActions.SignOutTwice | action/authActions.ts:169-209 | when the calls succeed and the token came from the header (or there was none), signing out a second time changes nothing and reports the same |
| AuthActions.RevokedTokenRefused | action/authActions.ts:260-278 | after a revocation, checking with the revoked token as a bearer header reports "Session expired" and changes nothing, when the reads succeed |
| AuthActions.RevokeSession | action/authActions.ts:260-278 | the stores and the reply are those of `TryRevoke`: "Session revoked" with the state of `Revoke`, or "Failed to revoke session" after whichever call threw |
| AuthActions.GetSessionData | action/authActions.ts:246-258 | returns the live cache entry for the token, if any, and changes nothing |
| AuthActions.SessionStored | action/authActions.ts:293-304 | the key is reported stored iff it exists and its TTL rounds to at least one second |
| AuthActions.LoginThenCheck | action/otpActions.ts:200-233 | after a successful login the session is stored and, for seven days, `checkAuth` with the cookie (or the same bearer token) authenticates it from the cache, when GET succeeds |
| OtpActions.AlphabetIndexInverse | action/otpActions.ts:42 | the code alphabet has 32 characters and each one's position is recovered from the character itself |
| OtpActions.AlphabetShape | action/otpActions.ts:42 | the 32 characters are distinct upper-case letters and digits, none of them 0, 1, I or O |
| OtpActions.OtpChar | action/otpActions.ts:119 | every random byte maps into the alphabet |
| OtpActions.GenerateOtp | action/otpActions.ts:117-120 | the code has one alphabet character per random byte, so no whitespace and no lower-case letter |
| OtpActions.HitsFormula | action/otpActions.ts:119 | among the byte values below `n`, the `k`-th character is produced by `n / 32` of them plus one when `n % 32 > k` |
| OtpActions.UniformAlphabet | action/otpActions.ts:117-120 | each of the 32 characters is produced by exactly 8 of the 256 byte values |
| OtpActions.NormalizeOtp | action/otpActions.ts:170 | the submitted code is upper-cased and every whitespace character removed; it is never longer than what was typed |
| OtpActions.NormalizeOtpIdempotent | action/otpActions.ts:170 | normalising a normalised code changes nothing |
| OtpActions.NormalizeGenerated | action/otpActions.ts:117-120 | a generated code, typed as mailed or in lower case, normalises back to itself |
| OtpActions.HexDigit | action/otpActions.ts:182 | each nibble becomes one lower-case hexadecimal digit that reads back as that nibble |
| OtpActions.Hex | action/otpActions.ts:182 | the token has two lower-case hexadecimal digits per random byte |
| OtpActions.UnhexHex | action/otpActions.ts:182 | reading the hexadecimal token back gives the random bytes |
| OtpActions.HexInjective | action/otpActions.ts:182 | two byte strings give the same token exactly when they are equal |
| OtpActions.RetryAfter | action/otpActions.ts:103 | `retryAfter` is the whole number of seconds, rounded down, until the rate-limit window resets |
| OtpActions.OtpMail | action/otpActions.ts:132-147 | the mail goes to the account's email and carries the code |
| OtpActions.IssueOtp | action/otpActions.ts:122-129 | the code and an expiry five minutes ahead replace any pending code; the session fields and the email are kept |
| OtpActions.SendOtpStep | action/otpActions.ts:86-158 | a refused rate check, a missing account and an empty email change nothing and say so, in that order; a throwing save is "Failed to send OTP" with nothing changed; otherwise a 6-character code is stored and mailed, `remainingAttempts` is `remaining - 1`, and the session state is untouched |
| OtpActions.SendOtp | action/otpActions.ts:86-158 | the stores end in `SendOtpStep`'s new state and the result is its outcome |
| OtpActions.NewSessionEntry | action/otpActions.ts:186-198 | the cache entry carries the account's id and email, the session expiry, missing text as "" and an empty avatar as none, and now as its creation and access time |
| OtpActions.ClearOtp | action/otpActions.ts:178 | the code and its expiry are unset; the session fields and the email are kept |
| OtpActions.StartSession | action/otpActions.ts:212-223 | the code is consumed and the token with its expiry recorded; id, email and avatar are kept |
| OtpActions.MintSession | action/otpActions.ts:182-239 | a login succeeds iff both the cache write and the account write succeed; a failed cache write changes nothing; a failed account write leaves the new entry readable in the cache (that one key written, nothing else) with account and cookie untouched; on success the 64-digit token is in the cache, the account and the cookie |
| OtpActions.VerifyOtpStep | action/otpActions.ts:163-244 | intended (see ## Findings): "Invalid OTP" iff no pending code equals the normalised input, changing nothing; "OTP expired" iff it matches, `otpExpires < now` and the unset succeeds, which removes the code; a throwing unset is "Verification failed" with nothing changed; success iff it matches, has not expired and both writes succeed, leaving no pending code and the new token stored |
| OtpActions.VerifyOtpAsWritten | action/otpActions.ts:172-180 | with the expiry not loaded, "OTP expired" is never reported and any matching code logs in when both writes succeed |
| OtpActions.ExpiredCodeAcceptedAsWritten | action/otpActions.ts:172-180 | a code past its expiry is accepted as written and refused as "OTP expired" by the intended check |
| OtpActions.VerifyOtp | action/otpActions.ts:163-244 | intended (see ## Findings): the stores end in `VerifyOtpStep`'s new state and the result is its outcome |
| OtpActions.IssueThenVerify | action/otpActions.ts:117-180 | a freshly mailed code, typed as mailed or in lower case, logs in until its expiry instant inclusive and is refused as expired afterwards |
| OtpActions.ReplayRejected | action/otpActions.ts:212-223 | after a login, every code is "Invalid OTP" until a new one is issued |
| OtpActions.NewCodeVoidsOld | action/otpActions.ts:125-129 | once a second, different code is issued, the first one is "Invalid OTP" |
| Sorting.FindFirst | action/promoCodeActions.ts:55 | the position found is the first record that matches, and none is found exactly when no record matches |
| PromoActions.FindCode | action/promoCodeActions.ts:55 | the position found holds the code, and none is found exactly when no record carries it |
| PromoActions.FindId | action/promoCodeActions.ts:97 | the position found holds the id, and none is found exactly when no record carries it |
| PromoActions.FindCodeUnique | models/PromoCode.ts:19 | with the unique index on `code`, looking up a record's code finds that record |
| PromoActions.ListPromoCodes | action/promoCodeActions.ts:18-20 | the listing holds exactly the stored codes, newest first |
| PromoActions.RedeemStep | action/promoCodeActions.ts:50-91 | not found, then expired at `expiresAt <= now`, then used up, each changing nothing; a throwing save is "Error redeeming promo code" with nothing changed; otherwise only that record changes, one more use and `updatedAt = now`; the usage bound and the unique keys are preserved |
| PromoActions.Redeem | action/promoCodeActions.ts:50-91 | the collection ends as `RedeemStep` leaves it and the result is its outcome |
| PromoActions.ZeroLimitNeverRedeemed | action/promoCodeActions.ts:70-75 | a code with limit 0 is never redeemed |
| PromoActions.RedeemBounded | action/promoCodeActions.ts:70-78 | however many redemptions follow, at whatever times and whichever of them fail to save, no code is used more often than its limit |
| PromoActions.DeactivateStep | action/promoCodeActions.ts:93-120 | a malformed id, or a throwing save of a found record, is "Error deactivating promo code"; an unknown id is "not found"; both change nothing; otherwise only that record changes, expiring now; the usage bound and the unique keys are preserved |
| PromoActions.Deactivate | action/promoCodeActions.ts:93-120 | the collection ends as `DeactivateStep` leaves it and the result is its outcome |
| PromoActions.DeactivatedStaysExpired | action/promoCodeActions.ts:63-68 | a deactivated code is refused as expired at that instant and at every later one |
| PromoActions.DeleteStep | action/promoCodeActions.ts:122-145 | a malformed id or a throwing delete is "Error deleting promo code" and an unknown id is "not found", each changing nothing; otherwise that record is removed and the others keep their order |
| PromoActions.Delete | action/promoCodeActions.ts:122-145 | the collection ends as `DeleteStep` leaves it and the result is its outcome |
| PromoActions.DeleteExactlyThatId | action/promoCodeActions.ts:126 | with unique ids, a delete removes exactly the record with that id and keeps every other |
| PromoModal.FilterPromoCodes | components/settings/PromoCodeManagementModal.tsx:137-147 | the shown list holds exactly the fetched codes that pass the tab's test |
| PromoModal.AllShowsEverything | components/settings/PromoCodeManagementModal.tsx:146 | the "all" tab shows the fetched list unchanged |
| PromoModal.ActiveExpiredPartition | components/settings/PromoCodeManagementModal.tsx:140-145 | the "active" and "expired" tabs are complementary: every code is on exactly one of them, each in fetched order |
| PromoModal.StatusLabel | components/settings/PromoCodeManagementModal.tsx:245-282 | "Expired" iff `expiresAt <= now`, "Fully redeemed" iff unexpired but used up, "Active" iff neither |
| PromoModal.ActiveCardRedeemable | components/settings/PromoCodeManagementModal.tsx:245-288 | a card reads "Active" (and offers Deactivate) exactly when the server would redeem its code |
| PromoModal.HandleRedeem | components/settings/PromoCodeManagementModal.tsx:71-96 | an empty box makes no call; a redeem the server accepts refetches the list newest first and clears the box; any other answer, an error included, leaves the panel and the codes as they were |
| PromoModal.AfterDelete | components/settings/PromoCodeManagementModal.tsx:125 | the local list loses exactly the entries with that id and keeps the others in order |
| PromoModal.HandleDelete | components/settings/PromoCodeManagementModal.tsx:119-135 | the server's collection is that of `DeleteStep`; the local list changes, as `AfterDelete`, only when the server reports the delete done, and nothing changes otherwise |
| Subscribers.ValidEmailIff | models/Subscriber.ts:22-24 | the left-to-right scan accepts exactly the strings of the form plain `@` plain `.` plain, with no whitespace and no `@` in any part |
| Subscribers.ValidEmailSingleAt | models/Subscriber.ts:23 | an accepted address holds exactly one `@` |
| Subscribers.StoredEmail | models/Subscriber.ts:19-20 | the stored address has no whitespace at either end and no upper-case letter |
| Subscribers.CanonicalIffFixed | models/Subscriber.ts:15-28 | an address is in the stored form (no surrounding whitespace, no upper-case letter) exactly when trimming and lower-casing it changes nothing |
| Subscribers.StoredEmailIdempotent | models/Subscriber.ts:59-62 | normalising an already stored address (the pre-save hook) changes nothing |
| Subscribers.Last4 | models/Subscriber.ts:55 | the last four characters, or all of a shorter string |
| Subscribers.RandomPart | models/Subscriber.ts:52-54 | one alphabet character per pick, at the picked index |
| Subscribers.SubscriberId | models/Subscriber.ts:49-56 | the id is `SUB-`, eight alphabet characters, `-`, then the last four base-36 digits of the clock |
| Subscribers.SubscriberIdLength | models/Subscriber.ts:55 | from 36^3 ms after the epoch on, every id has 17 characters |
| Subscribers.GenerateSubscriberId | models/Subscriber.ts:49-56 | the loop builds exactly the id described by `SubscriberId` |
| Subscribers.NewSubscriber | models/Subscriber.ts:35-38 | a new record is active, with the normalised email, the given id and both timestamps at now |
| NewsletterActions.FindEmail | action/newsletterActions.ts:28 | the filter is cast through the schema's `trim` and `lowercase` setters: the position found holds the stored form of the input, and none is found exactly when no record carries that form |
| NewsletterActions.AddSubscriberStep | action/newsletterActions.ts:13-54 | an invalid address, then a duplicate (any case or whitespace variant of a stored address), then a throwing save each change nothing and say so; otherwise the record is appended exactly when the schema and both unique indexes accept it, and the reply carries its id |
| NewsletterActions.AppendWellFormed | models/Subscriber.ts:15-28 | appending a valid, normalised record keeps every stored address valid and normalised |
| NewsletterActions.AppendUnique | models/Subscriber.ts:18 | appending a record with a new address and a new id keeps both unique |
| NewsletterActions.AddSubscriberKeepsInvariants | action/newsletterActions.ts:13-54 | subscribing never breaks uniqueness of addresses and ids, nor validity and normalisation of the stored addresses |
| NewsletterActions.AddSubscriber | action/newsletterActions.ts:13-54 | the store and the reply are those of `AddSubscriberStep` with a freshly generated id |
| NewsletterActions.VariantOfStoredEmailFound | action/newsletterActions.ts:28-34 | an upper-case or padded variant of a stored address is that subscriber: subscribing it is refused as already subscribed, and unsubscribing it deactivates exactly the stored record |
| NewsletterActions.UnsubscribeStep | action/newsletterActions.ts:173-200 | a throwing update is "Failed to unsubscribe"; "not found" exactly when the update succeeds and no record carries the address's stored form; both change nothing; otherwise that record alone becomes inactive with `updatedAt = now`; uniqueness is preserved |
| NewsletterActions.Unsubscribe | action/newsletterActions.ts:173-200 | the store and the reply are those of `UnsubscribeStep` |
| NewsletterActions.ActiveSubscribers | action/newsletterActions.ts:115 | exactly the active records, in stored order |
| NewsletterActions.Emails | action/newsletterActions.ts:211 | the address of each record, position by position |
| NewsletterActions.SubscriberEmails | action/newsletterActions.ts:202-220 | an address is listed exactly when some active record carries it |
| NewsletterActions.UnsubscribedNotListed | action/newsletterActions.ts:173-220 | after a successful unsubscribe the address, in its stored form, is no longer on the mailing list |
| NewsletterActions.PromoBlock | action/newsletterActions.ts:77-85 | the promo block is added exactly when `includePromo` is true and a non-empty code is given, and it shows that code |
| NewsletterActions.NewsletterBody | action/newsletterActions.ts:69-87 | no line break survives in the message, each one having become `<br>` (three characters longer) |
| NewsletterActions.MailsTo | action/newsletterActions.ts:120-128 | one mail per recipient, in order, all with the same subject and body |
| NewsletterActions.Failures | action/newsletterActions.ts:130 | the failure count is at most the number of sends, and zero exactly when every send succeeded |
| NewsletterActions.NewsletterStep | action/newsletterActions.ts:57-150 | "specific" without an address sends nothing; "specific" with one sends one mail; otherwise one mail per active subscriber, "none found" when there are none, else a failure count or the number reached |
| NewsletterActions.FanOutOutcome | action/newsletterActions.ts:130-142 | a fan-out reports success exactly when every send succeeded, and a failure count between 1 and the number of active subscribers otherwise |
| NewsletterActions.SendNewsletter | action/newsletterActions.ts:57-150 | the outbox grows by exactly the mails of `NewsletterStep` and the reply is its outcome |
| NewsletterActions.StorePromoStep | action/newsletterActions.ts:222-247 | stored exactly when the code is not empty (`required: true`, models/PromoCode.ts:19), the usage limit parses, neither the code nor the id is taken and the save succeeds, appending a record with no uses; otherwise nothing changes; the unique keys are preserved |
| NewsletterActions.StoredCodeRedeemable | action/newsletterActions.ts:222-247 | a newly stored code with a positive limit and a future expiry is redeemable at once |
| NewsletterActions.ValidatePromoCode | action/newsletterActions.ts:249-267 | a code shorter than 6 is refused first; a code is valid exactly when it has at least 6 characters and is not stored |
| NewsletterActions.ValidCodeStorable | action/newsletterActions.ts:249-262 | a code reported valid is then stored, given a fresh id |
| NewsletterModal.Suggestions | components/settings/NewsletterModal.tsx:106-118 | nothing for an empty search or no subscribers; otherwise exactly the non-empty addresses containing the search, case-insensitively, in their original order |
| NewsletterModal.PromoCodeOf | components/settings/NewsletterModal.tsx:132-136 | one alphabet character per pick, at the picked index |
| NewsletterModal.GeneratePromoCode | components/settings/NewsletterModal.tsx:131-144 | eight characters from the alphabet, single-use exactly when sent to one address, not custom, the usage limit kept |
| NewsletterModal.HandleCustomPromoCode | components/settings/NewsletterModal.tsx:146-153 | the typed code becomes the code, marked custom, the limit and the single-use flag kept |
| NewsletterModal.HandleValidatePromoCode | components/settings/NewsletterModal.tsx:155-177 | valid exactly when the code has at least 6 characters and is not stored; an empty code is refused without asking the server |
| NewsletterModal.GeneratedCodeChecked | components/settings/NewsletterModal.tsx:155-169 | a generated code is valid exactly when no stored code equals it |
| NewsletterModal.ExpiryDays | components/settings/NewsletterModal.tsx:180-183 | the custom day count counts only when its toggle is on and it is non-empty; the preset otherwise |
| NewsletterModal.ExpiresAt | components/settings/NewsletterModal.tsx:179-188 | the expiry exists exactly when the day count parses, and lies that many days after now |
| NewsletterModal.GetUsageLimit | components/settings/NewsletterModal.tsx:190-195 | the custom limit counts only when its toggle is on and it is non-empty; the preset otherwise |
| NewsletterModal.PresetLimitUsed | components/settings/NewsletterModal.tsx:190-195 | with the toggle off, the preset number is the limit, whatever the custom text says |
| NewsletterModal.Recipients | components/settings/NewsletterModal.tsx:204-207 | every subscriber for "all", otherwise the one typed address |
| NewsletterModal.PayloadAsWritten | components/settings/NewsletterModal.tsx:232-241 | the payload as written carries neither `specificEmail` nor `includePromo` |
| NewsletterModal.SpecificNeverSentAsWritten | components/settings/NewsletterModal.tsx:232-243 | with that payload a newsletter for one address is always refused and nothing is mailed |
| NewsletterModal.PromoNeverShownAsWritten | components/settings/NewsletterModal.tsx:232-243 | with that payload no mail carries the promo block, even with the promo switched on |
| NewsletterModal.Payload | components/settings/NewsletterModal.tsx:232-241 | the corrected payload carries the typed address and the promo switch, besides the fields sent as written |
| NewsletterModal.SpecificSentWithPayload | components/settings/NewsletterModal.tsx:232-243 | with the corrected payload, a newsletter for one typed address is one mail to that address, with the promo block when switched on |
| NewsletterModal.SubmitStep | components/settings/NewsletterModal.tsx:221-259 | intended (see ## Findings): with the promo on, the code is stored first and a failed store, a throwing save included, aborts before any mail; otherwise the send's mail and outcome; promo codes stay unique |
| NewsletterModal.HandleSubmit | components/settings/NewsletterModal.tsx:221-259 | intended (see ## Findings): the promo store, the outbox and the outcome are those of `SubmitStep` |
| NewsletterModal.EmptyCodeAborts | components/settings/NewsletterModal.tsx:59-60 | the code box starts empty and is not required; submitting with the promo switched on and no code stores nothing and sends no mail, as the schema refuses an empty code and `handleSubmit` returns (lines 226-229) |
| UploadRoute.FirstRejected | app/api/upload/route.ts:48-59 | every file before the returned index has an allowed type and size, and the file at it (if any) does not |
| UploadRoute.Validate | app/api/upload/route.ts:43-62 | valid exactly when there are 1 to 5 files, all of an allowed type and at most 50 MiB; the count is checked first, then the first bad file's type before its size |
| UploadRoute.ValidatePhotos | app/api/upload/route.ts:43-62 | the loop decides exactly what `Validate` describes |
| UploadRoute.OwnerId | app/api/upload/route.ts:65-74 | an owner is found exactly when the account holds the session token, and it is that account's id |
| UploadRoute.ObjectPath | app/api/upload/route.ts:116-119 | the path starts with `photos/<owner>/` and ends with `.` and the text after the file name's last dot |
| UploadRoute.UploadedMessage | app/api/upload/route.ts:174-176 | the count, then "photo" or, for more than one, "photos", then "uploaded successfully" |
| UploadRoute.FirstFailure | app/api/upload/route.ts:115-155 | every file before the returned index was stored under a new path with a public URL, and the file at it (if any) was not |
| UploadRoute.Paths | app/api/upload/route.ts:116-119 | one object path per file, built from the owner, the clock and that file's random suffix and name |
| UploadRoute.Records | app/api/upload/route.ts:159-167 | one record per uploaded path, in order, with the owner, the trimmed category and the new id |
| UploadRoute.Finish | app/api/upload/route.ts:111-180 | an upload error leaves the bucket as before; a missing public URL leaves the earlier files behind; a failed insert keeps every file; success adds one record per file |
| UploadRoute.UploadedRecords | app/api/upload/route.ts:159-167 | after a success the old records are kept and each new record carries the owner, the trimmed category, its id and a path that is in the bucket |
| UploadRoute.UploadStep | app/api/upload/route.ts:77-191 | 401 exactly without a session; 400 exactly for bad files or a blank category; then a missing owner; nothing changes before the owner is found |
| UploadRoute.RollbackRestores | app/api/upload/route.ts:130-138 | removing this request's uploads restores the bucket, as they were all new |
| UploadRoute.FirstFailureIs | app/api/upload/route.ts:115-155 | the index the loop stops at is the first failure |
| UploadRoute.RemoveAll | app/api/upload/route.ts:132-136 | the clean-up loop removes exactly the listed paths and leaves the records alone |
| UploadRoute.Rollback | app/api/upload/route.ts:130-138 | after an upload error the bucket is exactly as before the request |
| UploadRoute.StopsAt | app/api/upload/route.ts:115-155 | each exit of the upload loop matches the first failure and the bucket contents it leaves |
| UploadRoute.UploadAll | app/api/upload/route.ts:115-155 | the upload loop stops at the first failure and reports which failure it was, the records unchanged |
| UploadRoute.UploadFiles | app/api/upload/route.ts:111-180 | the records, the bucket and the reply are those of `Finish` |
| UploadRoute.Post | app/api/upload/route.ts:77-191 | the records, the bucket and the reply are those of `UploadStep` |
| UploadRoute.FindPhoto | app/api/upload/route.ts:220-223 | the position found holds a photo with that id and owner, and none is found exactly when no such photo exists |
| UploadRoute.DeleteStep | app/api/upload/route.ts:194-267 | 401 exactly without a session, 400 exactly for a missing or malformed id; the file goes exactly when the photo exists for that owner and storage removes it; then only that record goes too, or, when `deleteOne` throws, the record stays and the reply is an error |
| UploadRoute.Delete | app/api/upload/route.ts:194-267 | the records, the bucket and the reply are those of `DeleteStep` |
| UploadRoute.FinishKeepsConsistent | app/api/upload/route.ts:115-167 | the records added by an upload point at new, distinct files in the bucket |
| UploadRoute.UploadKeepsConsistent | app/api/upload/route.ts:77-191 | every record points at a stored file of its own before and after `POST`, whatever its outcome |
| UploadRoute.DeleteKeepsConsistent | app/api/upload/route.ts:232-248 | every record points at a stored file of its own before and after `DELETE`, when the record delete succeeds |
| UploadRoute.DeleteRemovesFile | app/api/upload/route.ts:232-248 | in a consistent gallery a deletion removes exactly one record and exactly one file |
| UploadRoute.FailedRecordDeleteDangles | app/api/upload/route.ts:232-248 | when storage removes the file but `deleteOne` throws, the record is left pointing at a file that is gone |
| PhotoActions.CountIn | action/photoActions.ts:49-51 | the count is positive exactly when some photo has exactly that category |
| PhotoActions.CeilDiv | action/photoActions.ts:65 | the page count is the least number of pages of the given size that hold the total |
| PhotoActions.Matching | action/photoActions.ts:43-44 | the photos of the category, newest first, and nothing else: a permutation of the filtered list |
| PhotoActions.Window | action/photoActions.ts:45-46 | at most `limit` entries, entry `k` being the `skip + k`-th, and exactly as many as remain after `skip` |
| PhotoActions.PhotosByCategory | action/photoActions.ts:30-78 | a blank category is refused, a page below 1 fails the query, otherwise at most `limit` photos of the trimmed category, newest first, with the full count, the page count and the page |
| PhotoActions.PageWithinCount | action/photoActions.ts:65 | the page holding the `i`-th of `n` photos is within the page count |
| PhotoActions.PagesCoverCategory | action/photoActions.ts:41-66 | the `i`-th newest photo of a category is entry `i mod limit` of page `i / limit + 1`, a page within the page count |
| PhotoActions.Distinct | action/photoActions.ts:84 | the same values as the input, each exactly once |
| PhotoActions.Categories | action/photoActions.ts:84 | the category of each photo, position by position |
| PhotoActions.AllCategories | action/photoActions.ts:81-93 | a category is returned exactly when some photo has it, each once |
| CategoryActions.GetCategories | action/categoryActions.ts:14-38 | refused exactly without a session; otherwise one entry per distinct category, its name doubling as its id, no id twice |
| CategoryActions.ListedIffHasPhotos | action/categoryActions.ts:25-28 | a category is listed exactly when some photo carries it |
| CategoryActions.DeleteCategory | action/categoryActions.ts:41-77 | refused without a session; refused exactly while some photo has that category, with the count and the name in the message; nothing is written either way |
| CategoryActions.RetireIffUnlisted | action/categoryActions.ts:54-68 | a category can be retired exactly when the list no longer shows it |
| AvatarActions.CheckAvatarFile | action/avatarAction.ts:9-23 | accepted exactly when a file is given, of an allowed type and at most 5 MiB; a missing file, then a bad type, then a size over the limit, each with its message |
| AvatarActions.GateAcceptsMissingExpiry | action/avatarAction.ts:29 | the gate admits an account whose session token has no expiry |
| AvatarActions.AvatarPath | action/avatarAction.ts:39-40 | the path lies under `public/` and ends with `.` and the text after the file name's last dot |
| AvatarActions.AvatarUrl | action/avatarAction.ts:64 | the stored URL is the public URL followed by `?t=` and the clock |
| AvatarActions.OldFileNameAsWritten | action/avatarAction.ts:102 | the name computed from the URL holds no `/` and no `?` |
| AvatarActions.OldPath | action/avatarAction.ts:172 | the corrected old path is that name back under `public/` |
| AvatarActions.NoSlashOrQuery | action/avatarAction.ts:40 | a written-out timestamp holds no `/` and no `?` |
| AvatarActions.OldPathRoundTrip | action/avatarAction.ts:39-64 | from a stored avatar URL the corrected old path recovers the path the file was uploaded to |
| AvatarActions.OldFileMissedAsWritten | action/avatarAction.ts:101-111 | as written, the computed name never names the stored file, so removing it leaves the old file in the bucket |
| AvatarActions.UploadAvatar | action/avatarAction.ts:39-81 | a failed upload changes nothing; an upload adds the file; without a public URL, or when the `$set` throws, the account is untouched and the reply says which; the avatar is set exactly when all three succeed, pointing at the new URL |
| AvatarActions.SaveAvatarStep | action/avatarAction.ts:25-82 | the gate, then the file check, each change nothing; the avatar is set exactly when the upload, the public URL and the `$set` succeed, adding exactly the new file and pointing the account at its URL; a throwing `$set` is "Failed to save avatar" with the new file left in the bucket; the account changes only on success |
| AvatarActions.EditAvatarStep | action/avatarAction.ts:84-156 | intended (see ## Findings): as saving, except that a valid file first removes the current avatar's file when there is one and storage allows it, and a throwing `$set` is "Failed to edit avatar" |
| AvatarActions.EditIgnoresRemoveFailure | action/avatarAction.ts:107-110 | a failed removal of the old file changes neither the reply nor the account |
| AvatarActions.DeleteAvatarStep | action/avatarAction.ts:158-194 | intended (see ## Findings): removed exactly when the gate opens, an avatar is set, storage removes the file and the `$set` succeeds; then the file goes and the field is cleared; a throwing `$set` leaves the field but the file is gone; every other refusal changes nothing |
| AvatarActions.SaveThenDelete | action/avatarAction.ts:25-194 | saving and then, while still signed in and with the storage and the account write succeeding, deleting an avatar leaves the bucket as before the save and the account without an avatar |
| AvatarActions.Upload | action/avatarAction.ts:39-81 | the account and the bucket are those of `UploadAvatar`; the cache, the cookie and the outbox are untouched |
| AvatarActions.SaveAvatar | action/avatarAction.ts:25-82 | the account, the bucket and the reply are those of `SaveAvatarStep`; nothing else changes |
| AvatarActions.EditAvatar | action/avatarAction.ts:84-156 | intended (see ## Findings): the account, the bucket and the reply are those of `EditAvatarStep`; nothing else changes |
| AvatarActions.DeleteAvatar | action/avatarAction.ts:158-194 | intended (see ## Findings): the account, the bucket and the reply are those of `DeleteAvatarStep`; nothing else changes |
| EmailActions.ContactLength | action/emailAction.ts:42-45 | an accepted contact number has 4 to 26 characters |
| EmailActions.ContactChars | action/emailAction.ts:42-45 | an accepted contact number holds only digits, `+`, parentheses, `-`, `.` and whitespace |
| EmailActions.AdmittedContactChar | action/emailAction.ts:43 | every character some piece of the pattern admits is one of those characters |
| EmailActions.ContactFirstChar | action/emailAction.ts:43 | an accepted contact number starts with `+` or a digit |
| EmailActions.ContactTrimmed | action/emailAction.ts:39-46 | trimming an accepted contact number changes nothing |
| EmailActions.ContactNonEmpty | action/emailAction.ts:43 | the pattern never accepts the empty text |
| EmailActions.LengthIssues | action/emailAction.ts:15-38 | no issue exactly when the length is within the bounds; "required" below the minimum, "too long" above the maximum |
| EmailActions.InquiryIssues | action/emailAction.ts:14-51 | no issue exactly when every field has its length, the contact number fits the pattern and an email is given |
| EmailActions.BookingIssues | action/emailAction.ts:53-59 | no issue exactly when the inquiry part is valid and the date has the form `dddd-dd-dd`; an inquiry issue comes before any date issue |
| EmailActions.BlankFieldsAccepted | action/emailAction.ts:19-50 | the bounds are checked before trimming, so names and an email of spaces alone pass and arrive empty |
| EmailActions.DateTrimmed | action/emailAction.ts:57-58 | trimming an accepted date changes nothing |
| EmailActions.BusinessEmail | action/emailAction.ts:82-85 | a business address exists exactly when the account exists with a non-empty email, and it is that email |
| EmailActions.InquiryMails | action/emailAction.ts:87-111 | two mails, the owner's first, then the client's |
| EmailActions.BookingMails | action/emailAction.ts:148-172 | two mails, the owner's first, then the client's |
| EmailActions.InquiryStepSends | action/emailAction.ts:61-121 | the first issue's message and no mail on invalid input; no mail without a business address; otherwise the owner's mail with the trimmed fields, then the client's reply, and success whatever the mailer answers |
| EmailActions.BookingStepSends | action/emailAction.ts:123-181 | as the inquiry, with the date in both subjects; sent exactly when the inquiry part and the date are valid and a business address exists |
| EmailActions.SendInquiryEmail | action/emailAction.ts:61-121 | the outbox grows by exactly the mails of `InquiryStep`, and the reply is its outcome |
| EmailActions.SendBookingEmail | action/emailAction.ts:123-181 | the outbox grows by exactly the mails of `BookingStep`, and the reply is its outcome |
| UserActions.IssueMessage | action/userAction.ts:8-12 | every failed check has a non-empty message |
| UserActions.NameIssues | action/userAction.ts:9-10 | no issue exactly when the name has 1 to 50 characters; "too short" for an empty name, "too long" above 50 |
| UserActions.ProfileIssues | action/userAction.ts:8-12 | no issue exactly when both names have 1 to 50 characters and the bio at most 500; at most one issue per field; the last issue is "too long" at 500 exactly when the bio exceeds 500 |
| UserActions.LongBioMessage | action/userAction.ts:11 | with valid names, a bio over 500 characters shows zod's message "String must contain at most 500 character(s)" |
| UserActions.Messages | action/userAction.ts:96-97 | one message per issue, in order |
| UserActions.ErrorStartsWithFirst | action/userAction.ts:95-102 | the error shown starts with the first failed check's message and is never empty |
| UserActions.SingleIssueMessage | action/userAction.ts:96-98 | a single failed check shows just its own message |
| UserActions.GetUserEmail | action/userAction.ts:14-25 | success and an email exactly when the account exists, and then its email; "No user found" otherwise |
| UserActions.OrEmpty | action/userAction.ts:42-44 | a present text is kept and a missing one reads as "" |
| UserActions.GetUserProfile | action/userAction.ts:27-56 | "No user found" exactly without an account; otherwise the names and bio with missing ones as "", and an avatar exactly when a non-empty one is stored |
| UserActions.UpdateProfileEffect | action/userAction.ts:58-110 | success exactly for a valid form, an existing account and a write that succeeds; a rejected form writes nothing and reports every failed check; a throwing write is "Profile update failed" with the account unchanged; success replaces the names and the bio (an empty bio becomes none) and keeps every other field |
| UserActions.UpdateThenRead | action/userAction.ts:27-93 | after a successful update, reading the profile back shows the submitted names and bio |
| UserActions.UpdateProfile | action/userAction.ts:58-110 | the account and the reply are those of `UpdateProfileStep`; the cache, the cookie and the outbox are untouched |
| LoginModal.UpperSlot | components/LoginModal.tsx:156-158 | a value the slot pattern accepts, upper-cased, is an empty slot or one upper-case letter or digit |
| LoginModal.Chars | components/LoginModal.tsx:179 | one single-character string per character, in order |
| LoginModal.JoinChars | components/LoginModal.tsx:179-181 | joining the characters of a text gives the text back |
| LoginModal.PasteFillsSlots | components/LoginModal.tsx:177-181 | a pasted code splits into six valid slot values whose concatenation is the code |
| LoginModal.Filled | components/LoginModal.tsx:320 | the number of filled slots is at most the number of slots |
| LoginModal.JoinLength | components/LoginModal.tsx:160 | with at most one character per slot, the joined code is as long as the number of filled slots |
| LoginModal.FilledAll | components/LoginModal.tsx:320 | every slot is filled exactly when the filled count equals the slot count |
| LoginModal.Pad2 | components/LoginModal.tsx:307 | a text shorter than two is padded to two; a longer one is kept |
| LoginModal.LeadingZero | components/LoginModal.tsx:307 | a leading zero does not change a digit string's value |
| LoginModal.TimerLabelShowsTime | components/LoginModal.tsx:304-308 | while the timer runs, the label shows minutes and exactly two digits of seconds below 60, which read back give the timer |
| LoginModal.Base10Bound | components/LoginModal.tsx:307 | a number below 100 has at most two decimal digits |
| LoginModal.CodeDialog.constructor | components/LoginModal.tsx:49-68 | six empty slots, an empty code, no countdown, nothing loading, not signed in |
| LoginModal.CodeDialog.ReceiveEmail | components/LoginModal.tsx:91-108 | a non-empty account email is kept and enables Send unless a send is under way; nothing else changes |
| LoginModal.CodeDialog.VerifyEnabledIffSchema | components/LoginModal.tsx:320 | Verify is enabled exactly when no verification is under way and the code passes the six-character schema |
| LoginModal.CodeDialog.HandleOtpChange | components/LoginModal.tsx:155-164 | an accepted value goes, upper-cased, into its own slot only and the code is their concatenation; anything else changes nothing |
| LoginModal.CodeDialog.HandleOtpPaste | components/LoginModal.tsx:175-184 | six letters or digits after trimming replace every slot and become the code, upper-cased; anything else changes nothing |
| LoginModal.CodeDialog.Tick | components/LoginModal.tsx:80-88 | the countdown loses one second while it is positive, and nothing else changes |
| LoginModal.CodeDialog.SubmitEmail | components/LoginModal.tsx:110-122 | a sent code starts a five-minute countdown, which locks Resend |
| LoginModal.CodeDialog.ResendCode | components/LoginModal.tsx:124-137 | a new code clears every slot and the code and restarts the countdown; a failure changes none of them |
| LoginModal.CodeDialog.SubmitOtp | components/LoginModal.tsx:139-153 | the server is asked exactly when the code has six characters; a success clears the slots and signs in; otherwise the slots stay |
| LoginModal.ResendLockedFor | components/LoginModal.tsx:335 | from a timer of `t`, the countdown reaches zero, and Resend unlocks, after exactly `t` ticks |
| UploadModal.CheckBatch | components/settings/UploadModal.tsx:62-80 | no rejection exactly when every file of the batch has an allowed type and size; otherwise the first offending file decides, "invalid type" exactly when its type is the problem |
| UploadModal.Taken | components/settings/UploadModal.tsx:55-56 | a prefix of the picked files that fits within five: all of them when there is room, enough to reach five otherwise |
| UploadModal.PickedFit | components/settings/UploadModal.tsx:55-56 | the dialog never holds more than five files, and with five nothing more is taken |
| UploadModal.NextIndex | components/settings/UploadModal.tsx:397-402 | "next" stays within the photos and steps ahead except from the last one |
| UploadModal.PrevIndex | components/settings/UploadModal.tsx:375-380 | "previous" stays within the photos and steps back except from the first one |
| UploadModal.ArrowsInverse | components/settings/UploadModal.tsx:373-402 | the two arrows undo each other on every photo |
| UploadModal.AdvanceStraight | components/settings/UploadModal.tsx:397-402 | before the last photo, each "next" steps one ahead |
| UploadModal.AdvanceAdd | components/settings/UploadModal.tsx:397-402 | pressing "next" `a + b` times is pressing it `a` times, then `b` times |
| UploadModal.FullCircle | components/settings/UploadModal.tsx:397-402 | pressing "next" once per photo returns to the photo one started from |
| UploadModal.SubmitCheck | components/settings/UploadModal.tsx:107-132 | posted exactly when there are files, a category is chosen and a custom one is not blank; otherwise the first failed check's message, in the order photos, custom name, category |
| UploadModal.OrElse | components/settings/UploadModal.tsx:164 | a non-empty message is kept, otherwise the fallback |
| UploadModal.ReplyError | components/settings/UploadModal.tsx:148-190 | no error exactly for a successful answer; every error is non-empty; a failed answer mentioning a bucket shows the bucket message |
| UploadModal.PresetHasNoSpace | components/settings/UploadModal.tsx:276-279 | a preset category is non-empty and holds no whitespace |
| UploadModal.PostedFormAccepted | components/settings/UploadModal.tsx:134-141 | what the dialog posts passes the route's file checks, and its category is not blank once the route trims it; a preset arrives unchanged |
| UploadModal.UploadDialog.constructor | components/settings/UploadModal.tsx:31-38 | no files, no category, no error, preview closed, not loading |
| UploadModal.UploadDialog.SetOpen | components/settings/UploadModal.tsx:40-46 | when the open flag changes the picked files are dropped; nothing else changes |
| UploadModal.UploadDialog.PickFiles | components/settings/UploadModal.tsx:52-84 | no file list changes nothing; otherwise the files that fit are added after the current ones and the error cleared exactly when all of them are allowed, and nothing is added otherwise |
| UploadModal.UploadDialog.RemoveFile | components/settings/UploadModal.tsx:86-94 | exactly that file goes, the others keep their order, and the error is cleared |
| UploadModal.UploadDialog.OpenPreview | components/settings/UploadModal.tsx:96-99 | the preview opens on that photo |
| UploadModal.UploadDialog.ShowNext | components/settings/UploadModal.tsx:397-402 | the preview moves as `NextIndex` and stays within the photos |
| UploadModal.UploadDialog.ShowPrevious | components/settings/UploadModal.tsx:375-380 | the preview moves as `PrevIndex` and stays within the photos |
| UploadModal.UploadDialog.ChooseCategory | components/settings/UploadModal.tsx:269-280 | the chosen option becomes the category |
| UploadModal.UploadDialog.TypeCustomCategory | components/settings/UploadModal.tsx:292-295 | the typed text becomes the custom category |
| UploadModal.UploadDialog.Submit | components/settings/UploadModal.tsx:101-204 | a failed check is shown and nothing is posted; otherwise every file and the category are posted, success empties the form and closes the dialog, and any other answer is shown as the error with the form kept |

## Left out

- MongoDB, the Redis cache, Supabase storage and nodemailer are not called. Each call becomes a value read from a store, or a boolean saying whether the call succeeded. Storage removals during clean-up are taken to succeed.
- Reads that throw, apart from the two reads of `checkAuth`, are not modelled: `dbConnect`, the other `findOne`/`findById` lookups, `find`, `distinct` and `countDocuments` each return the stored value. The catch-all replies they would reach are therefore left out. `checkAuth`'s Redis GET and account `findOne` are modelled as throwing (`CheckCalls.getOk`, `CheckCalls.findOk`), as is every throwing write.
- The cache hit in `checkAuth` is modelled as the stored entry read back, which is what the source sees when the Redis client returns the stored JSON text (`typeof … === "string"`, action/authActions.ts:80). A client that deserialises the value into an object would make that test fail and send every request down the account-document fallback; the Redis client's configuration (lib/redis.ts) is not part of this model.
- The sliding-window rate limiter's internals are not modelled. Its verdict `{success, remaining, reset}` is an input.
- Randomness (`randomBytes`, `Math.random`) is not modelled. Byte and index sequences are parameters.
- JSON encoding of the cookie and of cache values is not modelled. Cache values are records, and the cookie holds the parsed token or nothing. Cookie attributes are configuration and are not modelled.
- Concurrent requests are not modelled. Each request is one sequential step, and `Date.now()` is one value per request.
- Date formatting (`toISOString`, `toLocaleString`) and the calendar arithmetic of `setDate` are not modelled. A day is 86 400 000 ms.
- E-mail HTML templates are not modelled beyond the line-break transform and the promo-block condition. A mail is its recipient, its subject and the values its template interpolates.
- zod's `.email()` check is a boolean parameter. The profile messages are zod v3's default messages.
- String lengths count `char`s. JavaScript counts UTF-16 code units, and the two differ only outside the Basic Multilingual Plane. Case mapping is ASCII-only.
- Form inputs are always strings. A `FormData` entry that is a file where text was expected is not modelled.
- `ObjectId.Valid`: a string id is valid exactly when it is 24 hexadecimal digits, as in the BSON library of current Mongoose releases (version 5 and later). Older releases also accepted any 12-character string as 12 raw bytes; the model follows the current rule, so such a string is a malformed id for `PromoActions.DeactivateStep`, `PromoActions.DeleteStep` and `UploadRoute.DeleteStep`.
- The order of Mongo's `distinct` is taken as first occurrence. Sorting by `createdAt` is stable, and ties keep their stored order.
- `PhotoActions.PhotosByCategory`: requires `limit >= 1`. The source's default is 20 (action/photoActions.ts:32), and the gallery calls it with that default. A zero limit does not throw there: `Math.ceil(total / 0)` gives `Infinity` or `NaN` pages, and `.limit(0)` means no limit. The model does not describe that case.
- The catch-all "Failed to …" replies of the read-only queries (the promo-code listing, `getAllSubscribers`, `getUserProfile`, `getUserEmail`, `getCategories`, `getPhotosByCategory`, `getAllCategories`) are not modelled, as their reads do not throw in the model.
- `NewsletterModal.SubmitStep`: the browser's constraint validation before `handleSubmit` runs is not modelled: the `type="email"` address, the required subject and message, and the `min` bounds on the custom limit and the expiry days. The step takes any form, so it also describes forms the browser would stop.
- `UploadRoute.DeleteKeepsConsistent`: holds only when `deleteOne` succeeds. When it throws after the file was removed, the record is left dangling (`UploadRoute.FailedRecordDeleteDangles`).
- `AuthActions.SignOutToken`: a cookie whose `token` is a truthy object or array is not modelled. A numeric or `true` token is modelled by its string form, the form the cache key interpolates.
- Focus moves between the code slots (`inputRefs`, `handleOtpKeyDown`), toasts, object-URL revocation and the page reload after an upload are presentation and are not modelled.
- The browser's own validation of the custom category input (required, 3 to 30 characters) is not modelled. The model applies only the dialog's trim check.
- UploadModal network errors from `fetch` are modelled only as a failed reply.
- `UploadModal.UploadDialog.RemoveFile`: removing a file can leave the preview index past the end of the list. The model keeps this and claims no bound on the index after a removal.
- The NewsletterModal effects that fetch the subscribers (lines 82-103) and auto-generate a code when the promo switch is turned on (lines 121-129) are not modelled. Their results are inputs to the handlers.
- `LoginModal.CodeDialog.ReceiveEmail`: the failure path that closes the dialog is not modelled. The initial `checkAuth` effect (lines 70-77) is not modelled either.

## Findings

| source | as written | input that shows it | evidently intended | confidence | as-written member | corrected member |
|---|---|---|---|---|---|---|
| action/otpActions.ts:172-180 | the account is loaded with `select("_id email firstName lastName bio avatar")` (lines 172-174), so `otpExpires` is never loaded and the expiry test never fires | a code issued at time 0 and submitted at 300 001 ms, with both writes succeeding: it logs in | a code past `otpExpires` is refused as "OTP expired" and unset | not executed | OtpActions.ExpiredCodeAcceptedAsWritten | OtpActions.IssueThenVerify |
| action/avatarAction.ts:102 | in both `editAvatar` (line 102) and `deleteAvatar` (line 172) the old file name is the last `/` segment of the URL without its query, so the `public/` folder is lost | an avatar at `public/u_1.png`: the removal targets `u_1.png`, and the old file stays | remove the object at `public/<name>`, the path it was uploaded to | not executed | AvatarActions.OldFileMissedAsWritten | AvatarActions.SaveThenDelete |
| components/settings/NewsletterModal.tsx:232-241 | the payload omits `specificEmail` and `includePromo` | recipient type "specific" with address `a@b.co`: the server refuses for a missing address and nothing is mailed | send the typed address and the promo switch | not executed | NewsletterModal.SpecificNeverSentAsWritten | NewsletterModal.SpecificSentWithPayload |

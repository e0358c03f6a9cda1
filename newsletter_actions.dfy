/**
 * Newsletter server actions (action/newsletterActions.ts): subscribing, unsubscribing, listing
 * active subscribers, sending a newsletter to one address or to every active subscriber, and
 * storing and checking promo codes.
 */
module NewsletterActions {
  import opened Wrappers
  import opened Text
  import opened Sorting
  import opened Mailer
  import opened Subscribers
  import opened PromoActions

  /** "Invalid email address" (zod), "This email is already subscribed", "Thank you for subscribing!", "Failed to subscribe…". */
  datatype SubscribeOutcome = InvalidEmail | AlreadySubscribed | Subscribed(subscriberId: string) | SubscribeFailed

  /**
   * `findOne({email})` and `findOneAndUpdate({email}, …)`: Mongoose casts the filter through the
   * schema's `trim` and `lowercase` setters, so the address is looked up in its stored form (the save
   * hook's second lower-casing changes nothing, see `StoredEmailIdempotent`).
   */
  function FindEmail(subs: seq<Subscriber>, email: string): (r: Option<nat>)
    ensures r.Some? ==> r.value < |subs| && subs[r.value].email == StoredEmail(email)
    ensures r.None? <==> forall i :: 0 <= i < |subs| ==> subs[i].email != StoredEmail(email)
  {
    var key := StoredEmail(email);
    FindFirst(subs, (s: Subscriber) => s.email == key)
  }

  /** Whether saving `s` passes the schema validator and both unique indexes. */
  predicate Saveable(subs: seq<Subscriber>, s: Subscriber) {
    ValidEmail(s.email) && forall i :: 0 <= i < |subs| ==> subs[i].email != s.email && subs[i].subscriberId != s.subscriberId
  }

  /**
   * `addSubscriber`. `emailOk` is zod's `.email()` verdict on the raw input. The duplicate lookup
   * compares stored forms, so a case or whitespace variant of a stored address is already
   * subscribed. A new record can still be refused by the schema validator (which sees the stored
   * form) or by the unique index on the id; `saveOk` is whether the database accepts the write at
   * all. A save refused for any of these reasons is answered by the catch.
   */
  function AddSubscriberStep(subs: seq<Subscriber>, email: string, emailOk: bool, id: string, now: int, saveOk: bool)
    : (r: (seq<Subscriber>, SubscribeOutcome))
    ensures !emailOk ==> r == (subs, InvalidEmail)
    ensures emailOk && FindEmail(subs, email).Some? ==> r == (subs, AlreadySubscribed)
    ensures emailOk && FindEmail(subs, email).None? && !saveOk ==> r == (subs, SubscribeFailed)
    ensures r.1.Subscribed? <==>
      emailOk && FindEmail(subs, email).None? && Saveable(subs, NewSubscriber(email, id, now)) && saveOk
    ensures !r.1.Subscribed? ==> r.0 == subs
    ensures r.1.Subscribed? ==> r.0 == subs + [NewSubscriber(email, id, now)] && r.1.subscriberId == id
  {
    if !emailOk then (subs, InvalidEmail)
    else if FindEmail(subs, email).Some? then (subs, AlreadySubscribed)
    else
      var s := NewSubscriber(email, id, now);
      if Saveable(subs, s) && saveOk then (subs + [s], Subscribed(id)) else (subs, SubscribeFailed)
  }

  /** Appending a valid, normalised record keeps every record valid and normalised. */
  lemma AppendWellFormed(subs: seq<Subscriber>, s: Subscriber)
    requires WellFormed(subs) && ValidEmail(s.email) && Canonical(s.email)
    ensures WellFormed(subs + [s])
  {
    var after := subs + [s];
    forall i | 0 <= i < |after|
      ensures Normalised(after[i])
    {
      if i < |subs| {
        assert after[i] == subs[i];
      } else {
        assert after[i] == s;
      }
    }
  }

  /** Appending a record whose email and id are new keeps both unique. */
  lemma AppendUnique(subs: seq<Subscriber>, s: Subscriber)
    requires UniqueSubscribers(subs)
    requires forall i :: 0 <= i < |subs| ==> subs[i].email != s.email && subs[i].subscriberId != s.subscriberId
    ensures UniqueSubscribers(subs + [s])
  {
    var after := subs + [s];
    forall i, j | 0 <= i < j < |after|
      ensures after[i].email != after[j].email && after[i].subscriberId != after[j].subscriberId
    {
      assert after[i] == subs[i];
      if j < |subs| {
        assert after[j] == subs[j];
      }
    }
  }

  /** Every stored subscriber keeps a distinct, valid, normalised email and a distinct id. */
  lemma AddSubscriberKeepsInvariants(subs: seq<Subscriber>, email: string, emailOk: bool, id: string, now: int,
                                     saveOk: bool)
    requires UniqueSubscribers(subs) && WellFormed(subs)
    ensures var after := AddSubscriberStep(subs, email, emailOk, id, now, saveOk).0;
      UniqueSubscribers(after) && WellFormed(after)
  {
    var r := AddSubscriberStep(subs, email, emailOk, id, now, saveOk);
    if r.1.Subscribed? {
      var s := NewSubscriber(email, id, now);
      AppendWellFormed(subs, s);
      AppendUnique(subs, s);
    }
  }

  method AddSubscriber(db: SubscriberDb, email: string, emailOk: bool, picks: seq<nat>, now: nat, saveOk: bool)
    returns (o: SubscribeOutcome)
    requires |picks| == 8 && forall i :: 0 <= i < |picks| ==> picks[i] < |SUBSCRIBER_ID_CHARS|
    modifies db
    ensures (db.subs, o) == AddSubscriberStep(old(db.subs), email, emailOk, SubscriberId(picks, now), now, saveOk)
  {
    if !emailOk {
      return InvalidEmail;
    }
    if FindEmail(db.subs, email).Some? {
      return AlreadySubscribed;
    }
    var id := GenerateSubscriberId(picks, now);
    var s := NewSubscriber(email, id, now);
    if !Saveable(db.subs, s) || !saveOk {
      return SubscribeFailed;
    }
    db.subs := db.subs + [s];
    o := Subscribed(id);
  }

  /**
   * An upper-case or padded variant of a stored address is that subscriber: subscribing it again is
   * refused as a duplicate, and unsubscribing it deactivates the stored record.
   */
  lemma VariantOfStoredEmailFound(subs: seq<Subscriber>, email: string, id: string, now: int, saveOk: bool, k: nat)
    requires UniqueSubscribers(subs)
    requires k < |subs| && subs[k].email == StoredEmail(email)
    ensures AddSubscriberStep(subs, email, true, id, now, saveOk) == (subs, AlreadySubscribed)
    ensures UnsubscribeStep(subs, email, now, true) ==
      (subs[k := subs[k].(isActive := false, updatedAt := now)], Unsubscribed)
  {
    assert FindEmail(subs, email) == Some(k);
  }

  /** "Subscriber not found", "You have been unsubscribed", or "Failed to unsubscribe" when the update throws. */
  datatype UnsubscribeOutcome = SubscriberNotFound | Unsubscribed | UnsubscribeFailed

  /**
   * `unsubscribe`: `findOneAndUpdate({email}, {isActive: false})`; the update also stamps
   * `updatedAt`. `updateOk` is whether the call goes through; when it throws, nothing changes.
   */
  function UnsubscribeStep(subs: seq<Subscriber>, email: string, now: int, updateOk: bool)
    : (r: (seq<Subscriber>, UnsubscribeOutcome))
    ensures !updateOk ==> r == (subs, UnsubscribeFailed)
    ensures r.1 == SubscriberNotFound <==> updateOk && FindEmail(subs, email).None?
    ensures r.1 != Unsubscribed ==> r.0 == subs
    ensures r.1 == Unsubscribed ==>
      var k := FindEmail(subs, email).value;
      r.0 == subs[k := subs[k].(isActive := false, updatedAt := now)]
    ensures UniqueSubscribers(subs) ==> UniqueSubscribers(r.0)
  {
    if !updateOk then (subs, UnsubscribeFailed)
    else match FindEmail(subs, email)
    case None => (subs, SubscriberNotFound)
    case Some(k) => (subs[k := subs[k].(isActive := false, updatedAt := now)], Unsubscribed)
  }

  method Unsubscribe(db: SubscriberDb, email: string, now: int, updateOk: bool) returns (o: UnsubscribeOutcome)
    modifies db
    ensures (db.subs, o) == UnsubscribeStep(old(db.subs), email, now, updateOk)
  {
    if !updateOk {
      return UnsubscribeFailed;
    }
    var found := FindEmail(db.subs, email);
    if found.None? {
      return SubscriberNotFound;
    }
    var k := found.value;
    var s := db.subs[k];
    db.subs := db.subs[k := s.(isActive := false, updatedAt := now)];
    o := Unsubscribed;
  }

  function IsActiveSubscriber(s: Subscriber): bool { s.isActive }

  /** `find({isActive: true})`: the active subscribers, in stored order. */
  function ActiveSubscribers(subs: seq<Subscriber>): (r: seq<Subscriber>)
    ensures forall i :: 0 <= i < |r| ==> r[i].isActive && r[i] in subs
    ensures forall i :: 0 <= i < |subs| && subs[i].isActive ==> subs[i] in r
    ensures IsSubsequence(r, subs)
  {
    FilterSubsequence(subs, IsActiveSubscriber);
    Filter(subs, IsActiveSubscriber)
  }

  function Emails(subs: seq<Subscriber>): (r: seq<string>)
    ensures |r| == |subs|
    ensures forall i :: 0 <= i < |r| ==> r[i] == subs[i].email
  {
    seq(|subs|, i requires 0 <= i < |subs| => subs[i].email)
  }

  /** `getSubscribers`: the emails of the active subscribers. */
  function SubscriberEmails(subs: seq<Subscriber>): (r: seq<string>)
    ensures forall e :: e in r <==> exists i :: 0 <= i < |subs| && subs[i].isActive && subs[i].email == e
  {
    var active := ActiveSubscribers(subs);
    assert forall i :: 0 <= i < |subs| && subs[i].isActive ==> subs[i].email in Emails(active) by {
      forall i | 0 <= i < |subs| && subs[i].isActive
        ensures subs[i].email in Emails(active)
      {
        var j :| 0 <= j < |active| && active[j] == subs[i];
        assert Emails(active)[j] == subs[i].email;
      }
    }
    Emails(active)
  }

  /** After unsubscribing, the address (in its stored form) is no longer on the mailing list. */
  lemma UnsubscribedNotListed(subs: seq<Subscriber>, email: string, now: int)
    requires UniqueSubscribers(subs)
    requires UnsubscribeStep(subs, email, now, true).1 == Unsubscribed
    ensures StoredEmail(email) !in SubscriberEmails(UnsubscribeStep(subs, email, now, true).0)
  {
    var k := FindEmail(subs, email).value;
    var after := UnsubscribeStep(subs, email, now, true).0;
    forall i | 0 <= i < |after| && after[i].email == StoredEmail(email)
      ensures !after[i].isActive
    {
      assert i == k;
    }
  }

  /** The newsletter form as the action receives it; the optional fields may be missing. */
  datatype NewsletterForm = NewsletterForm(
    recipientType: string,
    specificEmail: Option<string>,
    subject: string,
    message: string,
    includePromo: Option<bool>,
    promoCode: Option<string>)

  /** The promo block is added iff `includePromo && promoCode` (a non-empty code). */
  function PromoBlock(form: NewsletterForm): (r: Option<string>)
    ensures r.Some? <==> form.includePromo == Some(true) && form.promoCode.Some? && form.promoCode.value != ""
    ensures r.Some? ==> r == form.promoCode
  {
    if form.includePromo == Some(true) && form.promoCode.Some? && form.promoCode.value != "" then form.promoCode else None
  }

  /** The mail body: the subject, the message with every line break turned into `<br>`, and the promo block. */
  function NewsletterBody(form: NewsletterForm): (b: Body)
    ensures b.NewsletterHtml? && '\n' !in b.messageHtml
    ensures |b.messageHtml| == |form.message| + 3 * Count(form.message, '\n')
  {
    NewlinesToBreaksLength(form.message);
    NewsletterHtml(form.subject, NewlinesToBreaks(form.message), PromoBlock(form))
  }

  /** One mail per recipient, in order. */
  function MailsTo(recipients: seq<string>, subject: string, body: Body): (r: seq<Mail>)
    ensures |r| == |recipients|
    ensures forall i :: 0 <= i < |r| ==> r[i] == Mail(recipients[i], subject, body)
  {
    seq(|recipients|, i requires 0 <= i < |recipients| => Mail(recipients[i], subject, body))
  }

  /** The number of sends the mailer reported as failed. */
  function Failures(delivered: seq<bool>): (n: nat)
    ensures n <= |delivered|
    ensures n == 0 <==> forall i :: 0 <= i < |delivered| ==> delivered[i]
  {
    if delivered == [] then 0 else (if delivered[0] then 0 else 1) + Failures(delivered[1..])
  }

  /** What `sendNewsletter` reports. */
  datatype NewsletterOutcome =
    | MissingSpecificEmail
    | SendFailed
    | SentToOne(email: string)
    | NoActiveSubscribers
    | SomeFailed(failures: nat)
    | SentToAll(count: nat)

  function NewsletterMessage(o: NewsletterOutcome): string {
    match o
    case MissingSpecificEmail => "Please enter a specific email address"
    case SendFailed => "Failed to send email"
    case SentToOne(email) => "Newsletter sent successfully to " + email
    case NoActiveSubscribers => "No active subscribers found"
    case SomeFailed(n) => "Failed to send to " + NatToString(n) + " subscribers"
    case SentToAll(n) => "Newsletter sent successfully to " + NatToString(n) + " subscribers"
  }

  /** How many sends a newsletter makes: one for "specific" with an address, one per active subscriber otherwise. */
  function SendCount(form: NewsletterForm, subs: seq<Subscriber>): nat {
    if form.recipientType == "specific" then
      (if form.specificEmail.Some? && form.specificEmail.value != "" then 1 else 0)
    else |ActiveSubscribers(subs)|
  }

  /**
   * `sendNewsletter`; `delivered[i]` is the mailer's result for the i-th send. The result is the
   * mail handed to the mailer and the outcome.
   */
  function NewsletterStep(form: NewsletterForm, subs: seq<Subscriber>, delivered: seq<bool>): (r: (seq<Mail>, NewsletterOutcome))
    requires |delivered| == SendCount(form, subs)
    ensures |r.0| == SendCount(form, subs)
    ensures form.recipientType == "specific" ==>
      if form.specificEmail.None? || form.specificEmail.value == "" then r == ([], MissingSpecificEmail)
      else r.0 == [Mail(form.specificEmail.value, form.subject, NewsletterBody(form))]
           && r.1 == (if delivered[0] then SentToOne(form.specificEmail.value) else SendFailed)
    ensures form.recipientType != "specific" ==>
      var active := ActiveSubscribers(subs);
      && r.0 == MailsTo(Emails(active), form.subject, NewsletterBody(form))
      && (active == [] ==> r.1 == NoActiveSubscribers)
      && (active != [] ==> r.1 == if Failures(delivered) > 0 then SomeFailed(Failures(delivered)) else SentToAll(|active|))
  {
    var body := NewsletterBody(form);
    if form.recipientType == "specific" then
      if form.specificEmail.None? || form.specificEmail.value == "" then ([], MissingSpecificEmail)
      else
        var to := form.specificEmail.value;
        ([Mail(to, form.subject, body)], if delivered[0] then SentToOne(to) else SendFailed)
    else
      var active := ActiveSubscribers(subs);
      if active == [] then ([], NoActiveSubscribers)
      else
        var n := Failures(delivered);
        (MailsTo(Emails(active), form.subject, body), if n > 0 then SomeFailed(n) else SentToAll(|active|))
  }

  /** A fan-out succeeds iff every send did, and then it reports the number of active subscribers. */
  lemma FanOutOutcome(form: NewsletterForm, subs: seq<Subscriber>, delivered: seq<bool>)
    requires form.recipientType != "specific" && ActiveSubscribers(subs) != []
    requires |delivered| == SendCount(form, subs)
    ensures NewsletterStep(form, subs, delivered).1.SentToAll? <==> forall i :: 0 <= i < |delivered| ==> delivered[i]
    ensures NewsletterStep(form, subs, delivered).1.SomeFailed? ==>
      0 < NewsletterStep(form, subs, delivered).1.failures <= |ActiveSubscribers(subs)|
  {
  }

  method SendNewsletter(db: SubscriberDb, outbox: Outbox, form: NewsletterForm, delivered: seq<bool>)
    returns (o: NewsletterOutcome)
    requires |delivered| == SendCount(form, db.subs)
    modifies outbox
    ensures outbox.sent == old(outbox.sent) + NewsletterStep(form, db.subs, delivered).0
    ensures o == NewsletterStep(form, db.subs, delivered).1
  {
    var r := NewsletterStep(form, db.subs, delivered);
    outbox.sent := outbox.sent + r.0;
    o := r.1;
  }

  /** "Promo code stored successfully" or "Failed to store promo code". */
  datatype StoreOutcome = Stored | StoreFailed

  /**
   * `storePromoCodes`: a new record with `usedCount = 0`; an empty code fails the schema's
   * `required`, a missing usage limit (NaN) fails the cast, a code already stored fails the unique
   * index, and `saveOk` is whether the database accepts the write at all.
   */
  function StorePromoStep(codes: seq<PromoCode>, id: string, code: string, expiresAt: int, usageLimit: Option<int>,
                          isUnique: bool, recipients: seq<string>, now: int, saveOk: bool): (r: PromoUpdate<StoreOutcome>)
    ensures r.outcome == Stored <==>
      code != "" && usageLimit.Some? && FindCode(codes, code).None? && FindId(codes, id).None? && saveOk
    ensures r.outcome == StoreFailed ==> r.codes == codes
    ensures r.outcome == Stored ==>
      r.codes == codes + [PromoCode(id, code, expiresAt, usageLimit.value, 0, isUnique, recipients, now, now)]
    ensures UniqueKeys(codes) ==> UniqueKeys(r.codes)
  {
    if code == "" || usageLimit.None? || FindCode(codes, code).Some? || FindId(codes, id).Some? || !saveOk then
      PromoUpdate(codes, StoreFailed)
    else PromoUpdate(codes + [PromoCode(id, code, expiresAt, usageLimit.value, 0, isUnique, recipients, now, now)], Stored)
  }

  /** A newly stored code with a positive limit and a future expiry can be redeemed straight away. */
  lemma StoredCodeRedeemable(codes: seq<PromoCode>, id: string, code: string, expiresAt: int, limit: int,
                             isUnique: bool, recipients: seq<string>, now: int)
    requires UniqueKeys(codes) && limit > 0 && expiresAt > now
    requires StorePromoStep(codes, id, code, expiresAt, Some(limit), isUnique, recipients, now, true).outcome == Stored
    ensures var after := StorePromoStep(codes, id, code, expiresAt, Some(limit), isUnique, recipients, now, true).codes;
      RedeemStep(after, code, now, true).outcome == Redeemed
  {
    var after := StorePromoStep(codes, id, code, expiresAt, Some(limit), isUnique, recipients, now, true).codes;
    FindCodeUnique(after, |codes|);
  }

  /** "Code must be at least 6 characters", "This code already exists", "Code is valid". */
  datatype CodeCheck = TooShort | CodeExists | CodeValid

  /** `validatePromoCode`: the length test comes first, so a short code is refused without a lookup. */
  function ValidatePromoCode(codes: seq<PromoCode>, code: string): (r: CodeCheck)
    ensures |code| < 6 ==> r == TooShort
    ensures r == CodeValid <==> |code| >= 6 && forall i :: 0 <= i < |codes| ==> codes[i].code != code
  {
    if |code| < 6 then TooShort
    else if FindCode(codes, code).Some? then CodeExists
    else CodeValid
  }

  /** The message sent back with each verdict. */
  function CodeCheckMessage(c: CodeCheck): string {
    match c
    case TooShort => "Code must be at least 6 characters"
    case CodeExists => "This code already exists"
    case CodeValid => "Code is valid"
  }

  /** A code reported valid can be stored, provided the id is fresh and the limit parses. */
  lemma ValidCodeStorable(codes: seq<PromoCode>, code: string, id: string, expiresAt: int, limit: int,
                          isUnique: bool, recipients: seq<string>, now: int)
    requires ValidatePromoCode(codes, code) == CodeValid && FindId(codes, id).None?
    ensures StorePromoStep(codes, id, code, expiresAt, Some(limit), isUnique, recipients, now, true).outcome == Stored
  {
  }
}

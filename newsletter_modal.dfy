/**
 * The newsletter composer (components/settings/NewsletterModal.tsx): address suggestions, the
 * generated or typed promo code, the usage-limit and expiry settings, and the submit sequence
 * that stores the promo code before sending.
 */
module NewsletterModal {
  import opened Wrappers
  import opened Text
  import opened Sorting
  import opened Mailer
  import opened Subscribers
  import opened PromoActions
  import opened NewsletterActions

  const PROMO_CHARS: string := "ABCDEFGHJKLMNPQRSTUVWXYZ23456789"
  const PROMO_LENGTH: nat := 8
  const DAY_MS: int := 24 * 60 * 60 * 1000

  function Suggests(search: string): string -> bool {
    (e: string) => e != "" && Contains(Lower(e), Lower(search))
  }

  /**
   * `filteredSuggestions`: nothing for an empty search or no subscribers; otherwise the addresses
   * whose lower-cased text contains the lower-cased search, in their original order.
   */
  function Suggestions(search: string, subscribers: seq<string>): (r: seq<string>)
    ensures search == "" || subscribers == [] ==> r == []
    ensures forall i :: 0 <= i < |r| ==> r[i] in subscribers && r[i] != "" && Contains(Lower(r[i]), Lower(search))
    ensures search != "" ==>
      forall i :: 0 <= i < |subscribers| && subscribers[i] != "" && Contains(Lower(subscribers[i]), Lower(search))
        ==> subscribers[i] in r
    ensures IsSubsequence(r, subscribers)
  {
    if search == "" || subscribers == [] then []
    else
      FilterSubsequence(subscribers, Suggests(search));
      Filter(subscribers, Suggests(search))
  }

  /** The promo code the composer holds. */
  datatype PromoDetails = PromoDetails(code: string, usageLimit: int, isUnique: bool, isCustom: bool)

  function PromoCodeOf(picks: seq<nat>): (code: string)
    requires forall i :: 0 <= i < |picks| ==> picks[i] < |PROMO_CHARS|
    ensures |code| == |picks|
    ensures forall i :: 0 <= i < |code| ==> code[i] == PROMO_CHARS[picks[i]]
  {
    seq(|picks|, i requires 0 <= i < |picks| => PROMO_CHARS[picks[i]])
  }

  /** `generatePromoCode`: eight random alphabet characters; single-use iff sent to one address; not custom. */
  method GeneratePromoCode(details: PromoDetails, recipientType: string, picks: seq<nat>) returns (d: PromoDetails)
    requires |picks| == PROMO_LENGTH && forall i :: 0 <= i < |picks| ==> picks[i] < |PROMO_CHARS|
    ensures |d.code| == PROMO_LENGTH && forall i :: 0 <= i < |d.code| ==> d.code[i] in PROMO_CHARS
    ensures d == details.(code := PromoCodeOf(picks), isUnique := recipientType == "specific", isCustom := false)
  {
    var code := "";
    for i := 0 to PROMO_LENGTH
      invariant code == PromoCodeOf(picks[..i])
    {
      code := code + [PROMO_CHARS[picks[i]]];
    }
    assert picks[..PROMO_LENGTH] == picks;
    d := details.(code := code, isUnique := recipientType == "specific", isCustom := false);
  }

  /** `handleCustomPromoCode`: the typed code replaces the current one and is marked custom. */
  function HandleCustomPromoCode(details: PromoDetails, code: string): (d: PromoDetails)
    ensures d.code == code && d.isCustom
    ensures d.usageLimit == details.usageLimit && d.isUnique == details.isUnique
  {
    details.(code := code, isCustom := true)
  }

  /** The verdict shown beside the promo code. */
  datatype Verdict = Verdict(isValid: bool, message: string)

  /** `handleValidatePromoCode`: an empty code is refused in the composer; any other code gets the server's verdict. */
  function HandleValidatePromoCode(codes: seq<PromoCode>, details: PromoDetails): (v: Verdict)
    ensures v.isValid <==> |details.code| >= 6 && forall i :: 0 <= i < |codes| ==> codes[i].code != details.code
    ensures details.code == "" ==> v == Verdict(false, "Please generate or enter a promo code")
    ensures details.code != "" ==> v.message == CodeCheckMessage(ValidatePromoCode(codes, details.code))
  {
    if details.code == "" then Verdict(false, "Please generate or enter a promo code")
    else
      var c := ValidatePromoCode(codes, details.code);
      Verdict(c == CodeValid, CodeCheckMessage(c))
  }

  /** A generated code is long enough, so it is reported valid exactly when no stored code equals it. */
  lemma GeneratedCodeChecked(codes: seq<PromoCode>, details: PromoDetails, picks: seq<nat>)
    requires |picks| == PROMO_LENGTH && forall i :: 0 <= i < |picks| ==> picks[i] < |PROMO_CHARS|
    ensures HandleValidatePromoCode(codes, details.(code := PromoCodeOf(picks))).isValid
      <==> forall i :: 0 <= i < |codes| ==> codes[i].code != PromoCodeOf(picks)
  {
  }

  /** The composer's promo settings, as typed. */
  datatype PromoConfig = PromoConfig(
    expiresIn: string,
    usageLimit: string,
    customExpiresDays: string,
    customUsageLimit: string,
    useCustomExpiry: bool,
    useCustomLimit: bool)

  /** The number of days the code lives: the custom text only when its toggle is on and it is non-empty. */
  function ExpiryDays(cfg: PromoConfig): (days: Option<int>)
    ensures cfg.useCustomExpiry && cfg.customExpiresDays != "" ==> days == ParseInt(cfg.customExpiresDays)
    ensures !(cfg.useCustomExpiry && cfg.customExpiresDays != "") ==> days == ParseInt(cfg.expiresIn)
  {
    if cfg.useCustomExpiry && cfg.customExpiresDays != "" then ParseInt(cfg.customExpiresDays) else ParseInt(cfg.expiresIn)
  }

  /** `calculateExpiryDate`, counting a day as 24 hours; an unparsable day count gives no date. */
  function ExpiresAt(cfg: PromoConfig, now: int): (at: Option<int>)
    ensures at.Some? <==> ExpiryDays(cfg).Some?
    ensures at.Some? ==> at.value == now + ExpiryDays(cfg).value * DAY_MS
  {
    match ExpiryDays(cfg)
    case None => None
    case Some(days) => Some(now + days * DAY_MS)
  }

  /** `getUsageLimit`: the custom limit only when its toggle is on and its text is non-empty. */
  function GetUsageLimit(cfg: PromoConfig): (limit: Option<int>)
    ensures cfg.useCustomLimit && cfg.customUsageLimit != "" ==> limit == ParseInt(cfg.customUsageLimit)
    ensures !(cfg.useCustomLimit && cfg.customUsageLimit != "") ==> limit == ParseInt(cfg.usageLimit)
  {
    if cfg.useCustomLimit && cfg.customUsageLimit != "" then ParseInt(cfg.customUsageLimit) else ParseInt(cfg.usageLimit)
  }

  /** With the toggle off, a preset limit such as "1" is the limit used, whatever the custom text says. */
  lemma PresetLimitUsed(cfg: PromoConfig, preset: nat)
    requires !cfg.useCustomLimit && cfg.usageLimit == NatToString(preset)
    ensures GetUsageLimit(cfg) == Some(preset)
  {
    ParseIntOfString(preset);
  }

  /** The form fields of the composer. */
  datatype ComposerForm = ComposerForm(
    recipientType: string,
    specificEmail: string,
    subject: string,
    message: string,
    includePromo: bool)

  /** The promo code's recipients: every subscriber for "all", otherwise the one typed address. */
  function Recipients(form: ComposerForm, subscribers: seq<string>): (r: seq<string>)
    ensures form.recipientType == "all" ==> r == subscribers
    ensures form.recipientType != "all" ==> r == [form.specificEmail]
  {
    if form.recipientType == "all" then subscribers else [form.specificEmail]
  }

  /** The payload `handleSubmit` sends as written: it carries neither `specificEmail` nor `includePromo`. */
  function PayloadAsWritten(form: ComposerForm, details: PromoDetails): (p: NewsletterForm)
    ensures p.specificEmail.None? && p.includePromo.None?
    ensures p.promoCode == if form.includePromo then Some(details.code) else None
  {
    NewsletterForm(form.recipientType, None, form.subject, form.message, None,
                   if form.includePromo then Some(details.code) else None)
  }

  /** As written, a newsletter for one address is always refused and sends nothing. */
  lemma SpecificNeverSentAsWritten(form: ComposerForm, details: PromoDetails, subs: seq<Subscriber>)
    requires form.recipientType == "specific"
    ensures NewsletterStep(PayloadAsWritten(form, details), subs, []) == ([], MissingSpecificEmail)
  {
  }

  /** As written, the promo block never reaches a subscriber, even with the promo switched on. */
  lemma PromoNeverShownAsWritten(form: ComposerForm, details: PromoDetails, subs: seq<Subscriber>, delivered: seq<bool>)
    requires form.recipientType != "specific"
    requires |delivered| == SendCount(PayloadAsWritten(form, details), subs)
    ensures forall m :: m in NewsletterStep(PayloadAsWritten(form, details), subs, delivered).0 ==> m.body.promoCode.None?
  {
  }

  /** The payload with the two fields the action reads. */
  function Payload(form: ComposerForm, details: PromoDetails): (p: NewsletterForm)
    ensures p.specificEmail == Some(form.specificEmail) && p.includePromo == Some(form.includePromo)
    ensures p.recipientType == form.recipientType && p.subject == form.subject && p.message == form.message
    ensures p.promoCode == if form.includePromo then Some(details.code) else None
  {
    NewsletterForm(form.recipientType, Some(form.specificEmail), form.subject, form.message, Some(form.includePromo),
                   if form.includePromo then Some(details.code) else None)
  }

  /** With the full payload, a newsletter for one typed address is mailed to that address, with the promo block if switched on. */
  lemma SpecificSentWithPayload(form: ComposerForm, details: PromoDetails, subs: seq<Subscriber>, delivered: seq<bool>)
    requires form.recipientType == "specific" && form.specificEmail != ""
    requires |delivered| == SendCount(Payload(form, details), subs)
    ensures var r := NewsletterStep(Payload(form, details), subs, delivered);
      && |r.0| == 1 && r.0[0].to == form.specificEmail
      && (form.includePromo && details.code != "" ==> r.0[0].body.promoCode == Some(details.code))
  {
  }

  /** The promo-code write that precedes the send; with the promo switched off nothing is written. */
  function StoreSubmittedPromo(codes: seq<PromoCode>, form: ComposerForm, details: PromoDetails, cfg: PromoConfig,
                               subscribers: seq<string>, id: string, now: int, saveOk: bool): PromoUpdate<StoreOutcome>
  {
    if !form.includePromo then PromoUpdate(codes, Stored)
    else match ExpiresAt(cfg, now)
      case None => PromoUpdate(codes, StoreFailed)
      case Some(at) =>
        StorePromoStep(codes, id, details.code, at, GetUsageLimit(cfg), details.isUnique, Recipients(form, subscribers), now,
                       saveOk)
  }

  /** What a submit ends in: aborted because the promo code could not be stored, or the send's outcome. */
  datatype SubmitOutcome = StoreAborted | Submitted(result: NewsletterOutcome)

  /**
   * `handleSubmit`: with the promo switched on, the code is stored first (a failure aborts before
   * any mail); then the newsletter is sent with the full payload. `saveOk` is whether the
   * database accepts the promo code's write.
   */
  function SubmitStep(codes: seq<PromoCode>, subs: seq<Subscriber>, form: ComposerForm, details: PromoDetails,
                      cfg: PromoConfig, subscribers: seq<string>, id: string, now: int, saveOk: bool,
                      delivered: seq<bool>)
    : (r: (seq<PromoCode>, seq<Mail>, SubmitOutcome))
    requires |delivered| == SendCount(Payload(form, details), subs)
    ensures !form.includePromo ==> r.0 == codes
    ensures r.2 == StoreAborted <==>
      form.includePromo && (ExpiresAt(cfg, now).None? ||
        StorePromoStep(codes, id, details.code, ExpiresAt(cfg, now).value, GetUsageLimit(cfg), details.isUnique,
                       Recipients(form, subscribers), now, saveOk).outcome == StoreFailed)
    ensures r.2 == StoreAborted ==> r.0 == codes && r.1 == []
    ensures r.2.Submitted? ==> (r.1, r.2.result) == NewsletterStep(Payload(form, details), subs, delivered)
    ensures UniqueKeys(codes) ==> UniqueKeys(r.0)
  {
    var stored := StoreSubmittedPromo(codes, form, details, cfg, subscribers, id, now, saveOk);
    if stored.outcome == StoreFailed then (codes, [], StoreAborted)
    else
      var sent := NewsletterStep(Payload(form, details), subs, delivered);
      (stored.codes, sent.0, Submitted(sent.1))
  }

  /**
   * The code box starts empty and is not a required field; submitting with the promo switched on and
   * no code stores nothing and sends no mail, because the schema refuses an empty code.
   */
  lemma EmptyCodeAborts(codes: seq<PromoCode>, subs: seq<Subscriber>, form: ComposerForm, details: PromoDetails,
                        cfg: PromoConfig, subscribers: seq<string>, id: string, now: int, saveOk: bool,
                        delivered: seq<bool>)
    requires |delivered| == SendCount(Payload(form, details), subs)
    requires form.includePromo && details.code == ""
    ensures SubmitStep(codes, subs, form, details, cfg, subscribers, id, now, saveOk, delivered) == (codes, [], StoreAborted)
  {
  }

  method HandleSubmit(promoDb: PromoDb, subDb: SubscriberDb, outbox: Outbox, form: ComposerForm, details: PromoDetails,
                      cfg: PromoConfig, subscribers: seq<string>, id: string, now: int, saveOk: bool,
                      delivered: seq<bool>)
    returns (o: SubmitOutcome)
    requires |delivered| == SendCount(Payload(form, details), subDb.subs)
    modifies promoDb, outbox
    ensures var r := SubmitStep(old(promoDb.codes), subDb.subs, form, details, cfg, subscribers, id, now, saveOk, delivered);
      promoDb.codes == r.0 && outbox.sent == old(outbox.sent) + r.1 && o == r.2
  {
    var stored := StoreSubmittedPromo(promoDb.codes, form, details, cfg, subscribers, id, now, saveOk);
    if stored.outcome == StoreFailed {
      return StoreAborted;
    }
    promoDb.codes := stored.codes;
    var result := SendNewsletter(subDb, outbox, Payload(form, details), delivered);
    o := Submitted(result);
  }
}

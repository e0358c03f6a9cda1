/**
 * The inquiry and booking forms (`action/emailAction.ts`): field validation with the first issue
 * as the error, then a mail to the business address stored on the account and a reply to the
 * client. Validation collects every failed check in field order; lengths are checked on the text
 * as typed and the fields are trimmed only afterwards.
 */
module EmailActions {
  import opened Wrappers
  import opened Text
  import opened Pattern
  import opened Mailer
  import opened Account

  datatype InquiryForm = InquiryForm(
    package: string,
    firstName: string,
    lastName: string,
    facebook: string,
    address: string,
    contactNumber: string,
    email: string)

  datatype BookingForm = BookingForm(inquiry: InquiryForm, date: string)

  /** `^\+?\d{1,4}?[-.\s]?\(?\d{1,3}?\)?[-.\s]?\d{1,4}[-.\s]?\d{1,9}$`. */
  const CONTACT_PATTERN: Regex :=
    Then(Piece(Plus, 0, 1), Then(Piece(Digit, 1, 4), Then(Piece(Separator, 0, 1),
    Then(Piece(OpenParen, 0, 1), Then(Piece(Digit, 1, 3), Then(Piece(CloseParen, 0, 1),
    Then(Piece(Separator, 0, 1), Then(Piece(Digit, 1, 4), Then(Piece(Separator, 0, 1),
    Then(Piece(Digit, 1, 9), End))))))))))

  /** The contact number fits `CONTACT_PATTERN`. */
  predicate ValidContact(s: string) {
    Matches(CONTACT_PATTERN, s)
  }

  /** `^\d{4}-\d{2}-\d{2}$`. */
  predicate IsDateText(s: string) {
    && |s| == 10 && s[4] == '-' && s[7] == '-'
    && forall i :: 0 <= i < 10 && i != 4 && i != 7 ==> IsDigit(s[i])
  }

  /** An accepted contact number has 4 to 26 characters. */
  lemma ContactLength(s: string)
    requires ValidContact(s)
    ensures 4 <= |s| <= 26
  {
    MatchLength(CONTACT_PATTERN, s);
  }

  /** An accepted contact number holds only digits, `+`, parentheses, `-`, `.` and whitespace. */
  lemma ContactChars(s: string)
    requires ValidContact(s)
    ensures forall i :: 0 <= i < |s| ==> ContactChar(s[i])
  {
    MatchCharset(CONTACT_PATTERN, s);
    forall i | 0 <= i < |s| ensures ContactChar(s[i]) {
      AdmittedContactChar(s[i]);
    }
  }

  predicate ContactChar(ch: char) {
    IsDigit(ch) || ch == '+' || ch == '(' || ch == ')' || ch == '-' || ch == '.' || IsSpace(ch)
  }

  lemma AdmittedContactChar(ch: char)
    requires Admitted(CONTACT_PATTERN, ch)
    ensures ContactChar(ch)
  {
    AdmittedByClass(CONTACT_PATTERN, ch);
    var c :| InClass(c, ch);
  }

  /** An accepted contact number starts with `+` or a digit. */
  lemma ContactFirstChar(s: string)
    requires ValidContact(s)
    ensures s != [] && (s[0] == '+' || IsDigit(s[0]))
  {
    ContactNonEmpty(s);
    if s[0] != '+' {
      SkipOptional(CONTACT_PATTERN.piece, CONTACT_PATTERN.rest, s);
      MatchFirstChar(CONTACT_PATTERN.rest.piece, CONTACT_PATTERN.rest.rest, s);
    }
  }

  /** Trimming an accepted contact number changes nothing: it starts with `+` or a digit and ends with a digit. */
  lemma ContactTrimmed(s: string)
    requires ValidContact(s)
    ensures Trim(s) == s
  {
    ContactEdges(s);
    TrimKeepsEdgeless(s);
  }

  /** An accepted contact number neither starts nor ends with whitespace. */
  lemma ContactEdges(s: string)
    requires ValidContact(s)
    ensures s == [] || (!IsSpace(s[0]) && !IsSpace(s[|s| - 1]))
  {
    ContactFirstChar(s);
    ContactLastChar(s);
    SignOrDigitNotSpace(s[0]);
    SignOrDigitNotSpace(s[|s| - 1]);
  }

  lemma SignOrDigitNotSpace(c: char)
    requires c == '+' || IsDigit(c)
    ensures !IsSpace(c)
  {
  }

  /** An accepted contact number ends with a digit. */
  lemma ContactLastChar(s: string)
    requires ValidContact(s)
    ensures s != [] && IsDigit(s[|s| - 1])
  {
    MatchLastChar(CONTACT_PATTERN, s, Digit);
  }

  lemma ContactNonEmpty(s: string)
    ensures ValidContact(s) ==> s != ""
  {
    if ValidContact(s) {
      MatchLength(CONTACT_PATTERN, s);
    }
  }

  /** The fields the schema bounds in length, in the order it lists them. */
  datatype TextField = Package | FirstName | LastName | Facebook | Address

  /** The form fields, in the order the schema lists them. */
  datatype Field = Text(text: TextField) | ContactNumber | Email | EventDate

  /** A failed check: a field left empty, a bounded field too long, or a text that does not fit its pattern. */
  datatype Issue = Required(field: Field) | TooLong(bounded: TextField) | InvalidContact | InvalidDate

  /** The message the schema attaches to each check. */
  function Message(issue: Issue): string {
    match issue
    case Required(Text(Package)) => "Package is required"
    case Required(Text(FirstName)) => "First name is required"
    case Required(Text(LastName)) => "Last name is required"
    case Required(Text(Facebook)) => "Facebook name or link is required"
    case Required(Text(Address)) => "Address is required"
    case Required(ContactNumber) => "Contact number is required"
    case Required(Email) => "Email is required"
    case Required(EventDate) => "Event date is required"
    case TooLong(Package) => "Package must be 500 characters or less"
    case TooLong(FirstName) => "First name must be 50 characters or less"
    case TooLong(LastName) => "Last name must be 50 characters or less"
    case TooLong(Facebook) => "Facebook name or link must be 200 characters or less"
    case TooLong(Address) => "Address must be 200 characters or less"
    case InvalidContact => "Invalid contact number"
    case InvalidDate => "Invalid date format (use YYYY-MM-DD)"
  }

  /** The issues of one length-bounded field: too short, too long. */
  function LengthIssues(s: string, min: nat, max: nat, field: TextField): (issues: seq<Issue>)
    requires min <= max
    ensures issues == [] <==> min <= |s| <= max
    ensures |s| < min ==> issues == [Required(Text(field))]
    ensures |s| > max && min <= |s| ==> issues == [TooLong(field)]
  {
    (if |s| < min then [Required(Text(field))] else []) + (if |s| > max then [TooLong(field)] else [])
  }

  /** What the inquiry schema accepts: bounded lengths, a contact number of the pattern, some email text. */
  predicate ValidInquiry(f: InquiryForm) {
    && 1 <= |f.package| <= 500
    && 1 <= |f.firstName| <= 50 && 1 <= |f.lastName| <= 50
    && 1 <= |f.facebook| <= 200 && 1 <= |f.address| <= 200
    && ValidContact(f.contactNumber)
    && f.email != ""
  }

  /** Every failed check of the inquiry schema, in field order. */
  function InquiryIssues(f: InquiryForm): (issues: seq<Issue>)
    ensures issues == [] <==> ValidInquiry(f)
  {
    ContactNonEmpty(f.contactNumber);
    LengthIssues(f.package, 1, 500, Package)
    + LengthIssues(f.firstName, 1, 50, FirstName)
    + LengthIssues(f.lastName, 1, 50, LastName)
    + LengthIssues(f.facebook, 1, 200, Facebook)
    + LengthIssues(f.address, 1, 200, Address)
    + (if f.contactNumber == "" then [Required(ContactNumber)] else [])
    + (if !ValidContact(f.contactNumber) then [InvalidContact] else [])
    + (if f.email == "" then [Required(Email)] else [])
  }

  /** A booking is an inquiry plus the event date, checked last. */
  function BookingIssues(f: BookingForm): (issues: seq<Issue>)
    ensures issues == [] <==> ValidInquiry(f.inquiry) && IsDateText(f.date)
    ensures InquiryIssues(f.inquiry) != [] ==> issues[0] == InquiryIssues(f.inquiry)[0]
  {
    InquiryIssues(f.inquiry)
    + (if f.date == "" then [Required(EventDate)] else [])
    + (if !IsDateText(f.date) then [InvalidDate] else [])
  }

  /** The parsed inquiry: every field but the package trimmed. */
  function Cleaned(f: InquiryForm): InquiryForm {
    InquiryForm(f.package, Trim(f.firstName), Trim(f.lastName), Trim(f.facebook), Trim(f.address),
                Trim(f.contactNumber), Trim(f.email))
  }

  /** Since the bounds apply before trimming, a name or an email of spaces alone is accepted and arrives empty. */
  lemma BlankFieldsAccepted(f: InquiryForm, blank: string)
    requires ValidInquiry(f)
    requires 1 <= |blank| <= 50 && forall i :: 0 <= i < |blank| ==> IsSpace(blank[i])
    ensures var g := f.(firstName := blank, lastName := blank, email := blank);
      ValidInquiry(g) && Trim(g.firstName) == "" && Trim(g.lastName) == "" && Trim(g.email) == ""
  {
    TrimEmptyIffAllSpace(blank);
  }

  /** Trimming never changes an accepted date: it starts and ends with a digit. */
  lemma DateTrimmed(d: string)
    requires IsDateText(d)
    ensures Trim(d) == d
  {
    assert IsDigit(d[0]) && IsDigit(d[9]);
    TrimKeepsEdgeless(d);
  }

  datatype EmailOutcome = EmailFailed(message: string) | EmailSent(message: string)

  /** `user?.email`: the business address, when an account with a non-empty email exists. */
  function BusinessEmail(user: Option<User>): (to: Option<string>)
    ensures to.Some? <==> user.Some? && user.value.email != ""
    ensures to.Some? ==> to.value == user.value.email
  {
    if user.Some? && user.value.email != "" then Some(user.value.email) else None
  }

  /** The owner's mail and then the client's reply, for a cleaned inquiry. */
  function InquiryMails(owner: string, g: InquiryForm): (mails: seq<Mail>)
    ensures |mails| == 2 && mails[0].to == owner && mails[1].to == g.email
  {
    [Mail(owner, "New Inquiry from " + g.firstName + " " + g.lastName,
          InquiryToOwner(g.package, g.firstName, g.lastName, g.contactNumber, g.email, g.facebook, g.address)),
     Mail(g.email, "Thank you for your inquiry", InquiryReply(g.firstName))]
  }

  /** The owner's mail and then the client's confirmation, for a cleaned booking. */
  function BookingMails(owner: string, g: InquiryForm, date: string): (mails: seq<Mail>)
    ensures |mails| == 2 && mails[0].to == owner && mails[1].to == g.email
  {
    [Mail(owner, "New Booking for " + date, BookingToOwner(date, g.package, g.firstName, g.lastName, g.contactNumber, g.email)),
     Mail(g.email, "Booking Received for " + date, BookingReply(g.firstName, date))]
  }

  /** `sendInquiryEmail` on the mailer: the mails sent, in order, and the result. */
  function InquiryStep(user: Option<User>, f: InquiryForm): (seq<Mail>, EmailOutcome) {
    var issues := InquiryIssues(f);
    if issues != [] then ([], EmailFailed(Message(issues[0])))
    else match BusinessEmail(user)
      case None => ([], EmailFailed("Business email not configured"))
      case Some(owner) =>
        (InquiryMails(owner, Cleaned(f)), EmailSent("Inquiry sent successfully"))
  }

  /**
   * The first validation issue is returned and nothing is sent; without a business address nothing
   * is sent; otherwise the owner's mail goes first and the client's reply second, both with the
   * trimmed fields, and success is reported whatever the mailer answers.
   */
  lemma InquiryStepSends(user: Option<User>, f: InquiryForm)
    ensures var r := InquiryStep(user, f);
      && (InquiryIssues(f) != [] ==> r == ([], EmailFailed(Message(InquiryIssues(f)[0]))))
      && (InquiryIssues(f) == [] && BusinessEmail(user).None? ==> r == ([], EmailFailed("Business email not configured")))
      && (r.1.EmailSent? <==> ValidInquiry(f) && BusinessEmail(user).Some?)
      && (r.1.EmailFailed? ==> r.0 == [])
      && (r.1.EmailSent? ==>
            var g := Cleaned(f);
            && |r.0| == 2
            && r.0[0].to == user.value.email && r.0[0].body.InquiryToOwner?
            && r.0[0].body.email == Trim(f.email) && r.0[0].body.contactNumber == f.contactNumber
            && r.0[1] == Mail(Trim(f.email), "Thank you for your inquiry", InquiryReply(Trim(f.firstName))))
  {
    if ValidInquiry(f) {
      ContactTrimmed(f.contactNumber);
    }
  }

  /** `sendBookingEmail` on the mailer: as the inquiry, with the date in both subjects. */
  function BookingStep(user: Option<User>, f: BookingForm): (seq<Mail>, EmailOutcome) {
    var issues := BookingIssues(f);
    if issues != [] then ([], EmailFailed(Message(issues[0])))
    else match BusinessEmail(user)
      case None => ([], EmailFailed("Business email not configured"))
      case Some(owner) =>
        (BookingMails(owner, Cleaned(f.inquiry), Trim(f.date)), EmailSent("Booking request sent"))
  }

  /** A booking is sent exactly when the inquiry part and the date are valid, with the date as typed in both subjects. */
  lemma BookingStepSends(user: Option<User>, f: BookingForm)
    ensures var r := BookingStep(user, f);
      && (BookingIssues(f) != [] ==> r == ([], EmailFailed(Message(BookingIssues(f)[0]))))
      && (BookingIssues(f) == [] && BusinessEmail(user).None? ==> r == ([], EmailFailed("Business email not configured")))
      && (r.1.EmailSent? <==> ValidInquiry(f.inquiry) && IsDateText(f.date) && BusinessEmail(user).Some?)
      && (r.1.EmailFailed? ==> r.0 == [])
      && (r.1.EmailSent? ==>
            && |r.0| == 2
            && r.0[0].to == user.value.email && r.0[0].subject == "New Booking for " + f.date
            && r.0[1] == Mail(Trim(f.inquiry.email), "Booking Received for " + f.date,
                              BookingReply(Trim(f.inquiry.firstName), f.date)))
  {
    if BookingIssues(f) == [] && BusinessEmail(user).Some? {
      DateTrimmed(f.date);
      var owner, g := BusinessEmail(user).value, Cleaned(f.inquiry);
      assert BookingStep(user, f) == (BookingMails(owner, g, f.date), EmailSent("Booking request sent"));
      assert g.firstName == Trim(f.inquiry.firstName) && g.email == Trim(f.inquiry.email);
    }
  }

  method SendInquiryEmail(outbox: Outbox, user: Option<User>, f: InquiryForm) returns (o: EmailOutcome)
    modifies outbox
    ensures outbox.sent == old(outbox.sent) + InquiryStep(user, f).0 && o == InquiryStep(user, f).1
  {
    var issues := InquiryIssues(f);
    var owner := BusinessEmail(user);
    if issues != [] {
      o := EmailFailed(Message(issues[0]));
    } else if owner.None? {
      o := EmailFailed("Business email not configured");
    } else {
      // the owner's mail is sent first, then the client's
      outbox.sent := outbox.sent + InquiryMails(owner.value, Cleaned(f));
      o := EmailSent("Inquiry sent successfully");
    }
  }

  method SendBookingEmail(outbox: Outbox, user: Option<User>, f: BookingForm) returns (o: EmailOutcome)
    modifies outbox
    ensures outbox.sent == old(outbox.sent) + BookingStep(user, f).0 && o == BookingStep(user, f).1
  {
    var issues := BookingIssues(f);
    var owner := BusinessEmail(user);
    if issues != [] {
      o := EmailFailed(Message(issues[0]));
    } else if owner.None? {
      o := EmailFailed("Business email not configured");
    } else {
      // the owner's mail is sent first, then the client's
      outbox.sent := outbox.sent + BookingMails(owner.value, Cleaned(f.inquiry), Trim(f.date));
      o := EmailSent("Booking request sent");
    }
  }
}

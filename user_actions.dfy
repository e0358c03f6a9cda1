/**
 * The owner's profile (`action/userAction.ts`): reading the email and the profile of the single
 * account, and the profile update with its validation. The schema checks both names for 1 to 50
 * characters and the bio for at most 500 (or exactly ""); every failed check is reported, the
 * messages joined with ", ". An update writes the two names and the bio, an empty bio as no bio,
 * and nothing else; a failing write is answered with the outer catch's "Profile update failed".
 */
module UserActions {
  import opened Wrappers
  import opened Text
  import opened Account

  /** The form as submitted; a missing bio is `None`. */
  datatype ProfileForm = ProfileForm(firstName: string, lastName: string, bio: Option<string>)

  /**
   * A failed check of the profile schema: a string too short or too long. The bio's union of "at
   * most 500" and the literal "" reports the first alternative's issue when its check is the only
   * one that fails, so an over-long bio is reported as too long.
   */
  datatype ProfileIssue = TooShort(min: nat) | TooLong(max: nat)

  /** The schema library's default message for each check. */
  function IssueMessage(issue: ProfileIssue): (m: string)
    ensures m != []
  {
    match issue
    case TooShort(min) => "String must contain at least " + NatToString(min) + " character(s)"
    case TooLong(max) => "String must contain at most " + NatToString(max) + " character(s)"
  }

  /** `formData.get("bio") || ""`: an absent bio is the empty string. */
  function BioText(form: ProfileForm): string {
    match form.bio
    case None => ""
    case Some(b) => b
  }

  /** The checks of one name, in order: at least one character, at most 50. */
  function NameIssues(s: string): (issues: seq<ProfileIssue>)
    ensures issues == [] <==> 1 <= |s| <= 50
    ensures |s| == 0 ==> issues == [TooShort(1)]
    ensures |s| > 50 ==> issues == [TooLong(50)]
  {
    (if |s| < 1 then [TooShort(1)] else []) + (if |s| > 50 then [TooLong(50)] else [])
  }

  predicate ValidProfile(form: ProfileForm) {
    1 <= |form.firstName| <= 50 && 1 <= |form.lastName| <= 50 && |BioText(form)| <= 500
  }

  /** Every failed check, in field order: first name, last name, bio. */
  function ProfileIssues(form: ProfileForm): (issues: seq<ProfileIssue>)
    ensures issues == [] <==> ValidProfile(form)
    ensures |issues| <= 3
    ensures |BioText(form)| > 500 <==> issues != [] && issues[|issues| - 1] == TooLong(500)
  {
    NameIssues(form.firstName) + NameIssues(form.lastName)
    + (if |BioText(form)| > 500 then [TooLong(500)] else [])
  }

  function Messages(issues: seq<ProfileIssue>): (ms: seq<string>)
    ensures |ms| == |issues|
    ensures forall i :: 0 <= i < |issues| ==> ms[i] == IssueMessage(issues[i])
  {
    if issues == [] then [] else [IssueMessage(issues[0])] + Messages(issues[1..])
  }

  /** The error shown for a rejected form: every message, joined with ", ". */
  function ErrorMessage(issues: seq<ProfileIssue>): string {
    Join(Messages(issues), ", ")
  }

  /** The shown error starts with the first failed check's message, and is never empty. */
  lemma ErrorStartsWithFirst(issues: seq<ProfileIssue>)
    requires issues != []
    ensures IssueMessage(issues[0]) <= ErrorMessage(issues)
    ensures ErrorMessage(issues) != []
  {
    JoinStartsWithFirst(Messages(issues), ", ");
  }

  /** Joining with ", " puts each message after the previous ones: one issue shows just its message. */
  lemma SingleIssueMessage(issue: ProfileIssue)
    ensures ErrorMessage([issue]) == IssueMessage(issue)
  {
    assert Messages([issue]) == [IssueMessage(issue)];
  }

  /** With valid names, an over-long bio is reported with the length check's own message. */
  lemma LongBioMessage(form: ProfileForm)
    requires 1 <= |form.firstName| <= 50 && 1 <= |form.lastName| <= 50 && |BioText(form)| > 500
    ensures ErrorMessage(ProfileIssues(form)) == "String must contain at most 500 character(s)"
  {
    assert ProfileIssues(form) == [TooLong(500)];
    SingleIssueMessage(TooLong(500));
    assert NatToBase(5, 10) == "5";
    assert NatToBase(50, 10) == "50";
    assert NatToString(500) == "500";
  }

  /** `getUserEmail`: the account's email, or "No user found" and no email. */
  datatype EmailLookup = EmailLookup(success: bool, message: Option<string>, email: Option<string>)

  function GetUserEmail(user: Option<User>): (r: EmailLookup)
    ensures r.success <==> user.Some?
    ensures r.email.Some? <==> user.Some?
    ensures user.Some? ==> r.email == Some(user.value.email) && r.message.None?
    ensures user.None? ==> r.message == Some("No user found")
  {
    match user
    case None => EmailLookup(false, Some("No user found"), None)
    case Some(u) => EmailLookup(true, None, Some(u.email))
  }

  /** `x || ""`: a missing or empty text is the empty string. */
  function OrEmpty(o: Option<string>): (s: string)
    ensures o.Some? ==> s == o.value
    ensures o.None? ==> s == ""
  {
    if o.Some? then o.value else ""
  }

  /** The profile as shown in the settings. */
  datatype Profile = Profile(firstName: string, lastName: string, bio: string, avatar: Option<string>)

  datatype ProfileLookup = NoProfile(message: string) | ProfileFound(message: string, profile: Profile)

  /** `getUserProfile`: missing names and bio read as "", a missing or empty avatar as none. */
  function GetUserProfile(user: Option<User>): (r: ProfileLookup)
    ensures r.NoProfile? <==> user.None?
    ensures r.NoProfile? ==> r.message == "No user found"
    ensures r.ProfileFound? ==>
      var u := user.value;
      && r.profile.firstName == OrEmpty(u.firstName) && r.profile.lastName == OrEmpty(u.lastName)
      && r.profile.bio == OrEmpty(u.bio)
      && (r.profile.avatar.Some? <==> u.avatar.Some? && u.avatar.value != "")
      && (r.profile.avatar.Some? ==> r.profile.avatar == u.avatar)
  {
    match user
    case None => NoProfile("No user found")
    case Some(u) =>
      ProfileFound("User profile fetched successfully",
                   Profile(OrEmpty(u.firstName), OrEmpty(u.lastName), OrEmpty(u.bio), NonEmpty(u.avatar)))
  }

  datatype UpdateOutcome = UpdateOutcome(success: bool, message: string)

  /** The account after a successful update: the names as given, the bio unless empty; everything else kept. */
  function Updated(u: User, form: ProfileForm): User {
    u.(firstName := Some(form.firstName), lastName := Some(form.lastName), bio := NonEmpty(Some(BioText(form))))
  }

  /**
   * `updateProfile`: the form is validated before the account is looked up; `writeOk` is the
   * verdict of the account update, whose failure is rethrown to the outer catch.
   */
  function UpdateProfileStep(user: Option<User>, form: ProfileForm, writeOk: bool): (Option<User>, UpdateOutcome) {
    var issues := ProfileIssues(form);
    if issues != [] then (user, UpdateOutcome(false, ErrorMessage(issues)))
    else match user
      case None => (None, UpdateOutcome(false, "No user found"))
      case Some(u) =>
        if !writeOk then (user, UpdateOutcome(false, "Profile update failed"))
        else (Some(Updated(u, form)), UpdateOutcome(true, "Profile updated successfully"))
  }

  /**
   * A rejected form writes nothing and reports every failed check; without an account nothing is
   * written; a failed write leaves the account as it was; a success replaces the names and the bio (an empty bio becomes no bio) and keeps every
   * other field, the session and the code included.
   */
  lemma UpdateProfileEffect(user: Option<User>, form: ProfileForm, writeOk: bool)
    ensures var (after, o) := UpdateProfileStep(user, form, writeOk);
      && (o.success <==> ValidProfile(form) && user.Some? && writeOk)
      && (!ValidProfile(form) ==> after == user && o.message == ErrorMessage(ProfileIssues(form)))
      && (ValidProfile(form) && user.None? ==> after == None && o.message == "No user found")
      && (ValidProfile(form) && user.Some? && !writeOk ==> after == user && o.message == "Profile update failed")
      && (o.success ==>
            var u, v := user.value, after.value;
            && v.firstName == Some(form.firstName) && v.lastName == Some(form.lastName)
            && (v.bio.None? <==> BioText(form) == "")
            && (v.bio.Some? ==> v.bio.value == BioText(form) && |v.bio.value| <= 500)
            && v.id == u.id && v.email == u.email && v.avatar == u.avatar
            && v.otp == u.otp && v.otpExpires == u.otpExpires
            && v.sessionToken == u.sessionToken && v.sessionExpires == u.sessionExpires)
  {
  }

  /** Reading the profile back after a successful update shows what was submitted, an absent bio as "". */
  lemma UpdateThenRead(user: Option<User>, form: ProfileForm, writeOk: bool)
    requires UpdateProfileStep(user, form, writeOk).1.success
    ensures var r := GetUserProfile(UpdateProfileStep(user, form, writeOk).0);
      && r.ProfileFound?
      && r.profile.firstName == form.firstName && r.profile.lastName == form.lastName
      && r.profile.bio == BioText(form)
  {
  }

  /** `updateProfile` on the stores: only the account record can change. */
  method UpdateProfile(st: Stores, form: ProfileForm, writeOk: bool) returns (o: UpdateOutcome)
    modifies st
    ensures (st.user, o) == UpdateProfileStep(old(st.user), form, writeOk)
    ensures st.cache == old(st.cache) && st.cookie == old(st.cookie) && st.outbox == old(st.outbox)
  {
    var issues := ProfileIssues(form);
    if issues != [] {
      return UpdateOutcome(false, ErrorMessage(issues));
    }
    if st.user.None? {
      return UpdateOutcome(false, "No user found");
    }
    if !writeOk {
      return UpdateOutcome(false, "Profile update failed");
    }
    st.user := Some(Updated(st.user.value, form));
    o := UpdateOutcome(true, "Profile updated successfully");
  }
}

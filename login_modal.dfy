/**
 * The code-entry dialog of the login flow (`components/LoginModal.tsx`): six one-character slots,
 * the form's `otp` value kept as their concatenation, the countdown shown while a code is fresh,
 * and the rules that enable the Send, Verify and Resend buttons. The server calls (`sendOtp`,
 * `verifyOtp`, `getUserEmail`) are modelled elsewhere; here their answers are parameters.
 */
module LoginModal {
  import opened Wrappers
  import opened Text

  const SLOTS: nat := 6
  /** Five minutes, in seconds. */
  const CODE_SECONDS: nat := 300

  /** `/^[A-Za-z0-9]?$/`: what a slot accepts as typed, nothing or one ASCII letter or digit. */
  predicate SlotInput(v: string) {
    v == "" || (|v| == 1 && IsAlnum(v[0]))
  }

  /** What a slot can hold: nothing, or one upper-case letter or digit. */
  predicate Slot(v: string) {
    v == "" || (|v| == 1 && (IsDigit(v[0]) || IsUpperAscii(v[0])))
  }

  /** An accepted input is upper-cased into a slot value. */
  lemma UpperSlot(v: string)
    requires SlotInput(v)
    ensures Slot(Upper(v))
  {
  }

  /** `/^[A-Za-z0-9]{6}$/`. */
  predicate PasteCode(p: string) {
    |p| == SLOTS && forall i :: 0 <= i < |p| ==> IsAlnum(p[i])
  }

  /** `p.split("")`: one string per character. */
  function Chars(p: string): (r: seq<string>)
    ensures |r| == |p|
    ensures forall i :: 0 <= i < |p| ==> r[i] == [p[i]]
  {
    if p == [] then [] else [[p[0]]] + Chars(p[1..])
  }

  /** Joining the characters of a string gives it back. */
  lemma {:induction false} JoinChars(p: string)
    ensures Join(Chars(p), "") == p
    decreases |p|
  {
    if |p| > 1 {
      JoinChars(p[1..]);
      assert Chars(p)[1..] == Chars(p[1..]);
      assert Join(Chars(p), "") == [p[0]] + "" + Join(Chars(p[1..]), "");
      assert p == [p[0]] + p[1..];
    } else if |p| == 1 {
      assert Chars(p) == [[p[0]]];
    }
  }

  /** A pasted code, upper-cased, splits into six slot values whose concatenation is the code. */
  lemma PasteFillsSlots(t: string)
    requires PasteCode(Upper(t))
    ensures var p := Upper(t);
      && (forall i :: 0 <= i < |Chars(p)| ==> Slot(Chars(p)[i]))
      && Join(Chars(p), "") == p
  {
    var p := Upper(t);
    JoinChars(p);
    forall i | 0 <= i < |p| ensures Slot(Chars(p)[i]) {
      assert p[i] == UpperChar(t[i]);
    }
  }

  /** The number of filled slots. */
  function Filled(slots: seq<string>): (n: nat)
    ensures n <= |slots|
  {
    if slots == [] then 0 else (if slots[0] != "" then 1 else 0) + Filled(slots[1..])
  }

  /** With one character at most per slot, the joined code is as long as the number of filled slots. */
  lemma {:induction false} JoinLength(slots: seq<string>)
    requires forall i :: 0 <= i < |slots| ==> Slot(slots[i])
    ensures |Join(slots, "")| == Filled(slots)
    decreases |slots|
  {
    if |slots| == 1 {
    } else if |slots| > 1 {
      JoinLength(slots[1..]);
      assert Join(slots, "") == slots[0] + "" + Join(slots[1..], "");
    }
  }

  /** Every slot is filled exactly when the count of filled slots is the number of slots. */
  lemma {:induction false} FilledAll(slots: seq<string>)
    ensures Filled(slots) == |slots| <==> forall i :: 0 <= i < |slots| ==> slots[i] != ""
    decreases |slots|
  {
    if slots != [] {
      FilledAll(slots[1..]);
      if forall i :: 0 <= i < |slots| ==> slots[i] != "" {
        assert forall i :: 0 <= i < |slots[1..]| ==> slots[1..][i] != "" by {
          forall i | 0 <= i < |slots[1..]| ensures slots[1..][i] != "" {
            assert slots[1..][i] == slots[i + 1];
          }
        }
      } else if Filled(slots) == |slots| {
        assert slots[0] != "";
        forall i | 0 <= i < |slots| ensures slots[i] != "" {
          if i > 0 {
            assert slots[i] == slots[1..][i - 1];
          }
        }
      }
    }
  }

  /** `otpSchema`: the code must be exactly six characters. */
  predicate OtpSchema(otp: string) {
    |otp| == SLOTS
  }

  /** `String(n).padStart(2, "0")`. */
  function Pad2(s: string): (r: string)
    ensures |s| < 2 ==> |r| == 2
    ensures |s| >= 2 ==> r == s
  {
    if |s| == 0 then "00" else if |s| == 1 then "0" + s else s
  }

  /** The countdown line: minutes, a colon and two-digit seconds while the timer runs. */
  function TimerLabel(t: nat): string {
    if t > 0 then "Code expires in " + NatToString(t / 60) + ":" + Pad2(NatToString(t % 60))
    else "Didn't receive a code?"
  }

  /** A leading zero does not change a digit string's value. */
  lemma {:induction false} LeadingZero(s: string)
    requires forall i :: 0 <= i < |s| ==> IsDigit(s[i])
    ensures DigitsValue("0" + s) == DigitsValue(s)
    decreases |s|
  {
    var z := "0" + s;
    if s == [] {
      assert z[..0] == [];
    } else {
      assert z[..|z| - 1] == "0" + s[..|s| - 1];
      LeadingZero(s[..|s| - 1]);
    }
  }

  /**
   * While the timer runs, the label shows the remaining time: the minutes, then the seconds as
   * exactly two digits below 60, which read back give the timer.
   */
  lemma TimerLabelShowsTime(t: nat)
    requires t > 0
    ensures exists m: string, ss: string ::
      && TimerLabel(t) == "Code expires in " + m + ":" + ss
      && |ss| == 2 && (forall i :: 0 <= i < |m| ==> IsDigit(m[i])) && (forall i :: 0 <= i < 2 ==> IsDigit(ss[i]))
      && DigitsValue(ss) < 60 && DigitsValue(m) * 60 + DigitsValue(ss) == t
  {
    var m := NatToString(t / 60);
    var sec := NatToString(t % 60);
    var ss := Pad2(sec);
    DigitsValueOfString(t / 60);
    DigitsValueOfString(t % 60);
    assert |sec| <= 2 by {
      if |sec| > 2 {
        Base10Bound(t % 60, sec);
      }
    }
    if |sec| == 1 {
      LeadingZero(sec);
    }
    assert forall i :: 0 <= i < 2 ==> IsDigit(ss[i]);
    assert DigitsValue(ss) == t % 60;
  }

  /** A number below 100 has at most two decimal digits. */
  lemma Base10Bound(n: nat, s: string)
    requires n < 100 && s == NatToString(n)
    ensures |s| <= 2
  {
    if n >= 10 {
      assert NatToBase(n / 10, 10) == [DigitChar(n / 10)];
    }
  }

  class CodeDialog {
    /** The account email read when the dialog opens; Send is disabled without it. */
    var email: Option<string>
    /** `otpDigits`: the six slots. */
    var digits: seq<string>
    /** The form's `otp` value. */
    var otp: string
    /** `otpTimer`, in seconds. */
    var timer: nat
    var sending: bool
    var verifying: bool
    var resending: bool
    var authenticated: bool

    /** Six slots, each empty or one upper-case letter or digit, and the form value their concatenation. */
    ghost predicate Valid()
      reads this
    {
      && |digits| == SLOTS
      && (forall i :: 0 <= i < |digits| ==> Slot(digits[i]))
      && otp == Join(digits, "")
    }

    constructor ()
      ensures Valid() && digits == ["", "", "", "", "", ""] && otp == "" && timer == 0
      ensures email.None? && !sending && !verifying && !resending && !authenticated
    {
      email := None;
      digits := ["", "", "", "", "", ""];
      otp := "";
      timer := 0;
      sending, verifying, resending, authenticated := false, false, false, false;
      new;
      assert Join(digits, "") == "";
    }

    /** The email lookup made when the dialog opens: an account's non-empty email enables Send. */
    method ReceiveEmail(found: Option<string>)
      requires Valid()
      modifies this
      ensures Valid()
      ensures found.Some? && found.value != "" ==> email == found && SendEnabled() == !sending
      ensures !(found.Some? && found.value != "") ==> email == old(email)
      ensures digits == old(digits) && otp == old(otp) && timer == old(timer) && authenticated == old(authenticated)
      ensures sending == old(sending) && verifying == old(verifying) && resending == old(resending)
    {
      if found.Some? && found.value != "" {
        email := found;
      }
    }

    predicate SendEnabled()
      reads this
    {
      !sending && email.Some?
    }

    /** Verify needs every slot filled. */
    predicate VerifyEnabled()
      reads this
    {
      !verifying && forall i :: 0 <= i < |digits| ==> digits[i] != ""
    }

    /** Resend is locked while the countdown runs. */
    predicate ResendEnabled()
      reads this
    {
      !resending && timer == 0
    }

    /** Verify is enabled exactly when the form value passes `otpSchema` (and nothing is in flight). */
    lemma VerifyEnabledIffSchema()
      requires Valid()
      ensures VerifyEnabled() <==> !verifying && OtpSchema(otp)
    {
      JoinLength(digits);
      FilledAll(digits);
    }

    /** `handleOtpChange`: an accepted value goes, upper-cased, into its slot and no other. */
    method HandleOtpChange(index: nat, value: string)
      requires Valid() && index < SLOTS
      modifies this
      ensures Valid()
      ensures SlotInput(value) ==> digits == old(digits)[index := Upper(value)]
      ensures !SlotInput(value) ==> digits == old(digits) && otp == old(otp)
      ensures email == old(email) && timer == old(timer) && authenticated == old(authenticated)
      ensures sending == old(sending) && verifying == old(verifying) && resending == old(resending)
    {
      if !SlotInput(value) {
        return;
      }
      UpperSlot(value);
      digits := digits[index := Upper(value)];
      otp := Join(digits, "");
    }

    /** `handleOtpPaste`: six letters or digits, after trimming, replace every slot; anything else changes nothing. */
    method HandleOtpPaste(text: string)
      requires Valid()
      modifies this
      ensures Valid()
      ensures PasteCode(Upper(Trim(text))) ==> otp == Upper(Trim(text)) && digits == Chars(otp)
      ensures !PasteCode(Upper(Trim(text))) ==> digits == old(digits) && otp == old(otp)
      ensures email == old(email) && timer == old(timer) && authenticated == old(authenticated)
      ensures sending == old(sending) && verifying == old(verifying) && resending == old(resending)
    {
      var trimmed := Trim(text);
      var pasted := Upper(trimmed);
      if PasteCode(pasted) {
        PasteFillsSlots(trimmed);
        digits := Chars(pasted);
        otp := pasted;
      }
    }

    /** One second of the countdown interval, which only runs while the timer is positive. */
    method Tick()
      requires Valid()
      modifies this
      ensures Valid()
      ensures timer == if old(timer) > 0 then old(timer) - 1 else 0
      ensures digits == old(digits) && otp == old(otp) && email == old(email) && authenticated == old(authenticated)
      ensures sending == old(sending) && verifying == old(verifying) && resending == old(resending)
    {
      if timer > 0 {
        timer := timer - 1;
      }
    }

    /** `onEmailSubmit` with the server's answer: a code was sent, so the countdown starts at five minutes. */
    method SubmitEmail(sent: bool)
      requires Valid()
      modifies this
      ensures Valid()
      ensures timer == if sent then CODE_SECONDS else old(timer)
      ensures sent ==> !ResendEnabled()
      ensures digits == old(digits) && otp == old(otp) && email == old(email) && authenticated == old(authenticated)
      ensures !sending && verifying == old(verifying) && resending == old(resending)
    {
      sending := true;
      if sent {
        timer := CODE_SECONDS;
      }
      sending := false;
    }

    /** `onResendOtp`: a new code clears the slots and the form value and restarts the countdown. */
    method ResendCode(sent: bool)
      requires Valid()
      modifies this
      ensures Valid()
      ensures sent ==> digits == ["", "", "", "", "", ""] && otp == "" && timer == CODE_SECONDS
      ensures !sent ==> digits == old(digits) && otp == old(otp) && timer == old(timer)
      ensures email == old(email) && authenticated == old(authenticated)
      ensures sending == old(sending) && verifying == old(verifying) && !resending
    {
      resending := true;
      if sent {
        digits := ["", "", "", "", "", ""];
        otp := "";
        timer := CODE_SECONDS;
        assert Join(digits, "") == "";
      }
      resending := false;
    }

    /**
     * The verify form: `otpSchema` is checked first, so a short code never reaches the server; on
     * success the slots are cleared and the visitor is signed in.
     */
    method SubmitOtp(verified: bool) returns (submitted: bool)
      requires Valid()
      modifies this
      ensures Valid()
      ensures submitted <==> OtpSchema(old(otp))
      ensures submitted && verified ==> authenticated && digits == ["", "", "", "", "", ""] && otp == ""
      ensures !(submitted && verified) ==> digits == old(digits) && otp == old(otp) && authenticated == old(authenticated)
      ensures email == old(email) && timer == old(timer)
      ensures sending == old(sending) && verifying == (!submitted && old(verifying)) && resending == old(resending)
    {
      if !OtpSchema(otp) {
        return false;
      }
      submitted := true;
      verifying := true;
      if verified {
        digits := ["", "", "", "", "", ""];
        otp := "";
        authenticated := true;
        assert Join(digits, "") == "";
      }
      verifying := false;
    }
  }

  /** The timer after `k` ticks from `t`. */
  function TimerAfter(t: nat, k: nat): nat {
    if k == 0 then t else if t == 0 then 0 else TimerAfter(t - 1, k - 1)
  }

  /** From a timer of `t`, the countdown reaches zero after exactly `t` ticks: a sent code locks Resend for five minutes. */
  lemma {:induction false} ResendLockedFor(t: nat, k: nat)
    ensures TimerAfter(t, k) == 0 <==> k >= t
    decreases k
  {
    if k > 0 && t > 0 {
      ResendLockedFor(t - 1, k - 1);
    }
  }
}

/**
 * The newsletter subscriber record (models/Subscriber.ts): its email rule and normalisation, the
 * `isActive` default, and the generated public id `SUB-XXXXXXXX-tttt`.
 */
module Subscribers {
  import opened Text

  const SUBSCRIBER_ID_CHARS: string := "ABCDEFGHJKLMNPQRSTUVWXYZ23456789"
  const ID_PREFIX: string := "SUB-"

  datatype Subscriber = Subscriber(
    email: string,
    subscriberId: string,
    isActive: bool,
    createdAt: int,
    updatedAt: int)

  /** Text the email pattern allows between its separators: no whitespace and no `@`. */
  predicate Plain(s: string) {
    forall i :: 0 <= i < |s| ==> !IsSpace(s[i]) && s[i] != '@'
  }

  /** The pattern read literally, with `@` at `at` and the chosen `.` at `dot`: all three parts non-empty and plain. */
  predicate EmailShapeAt(s: string, at: int, dot: int) {
    && 0 < at && at + 1 < dot && dot + 1 < |s|
    && s[at] == '@' && s[dot] == '.'
    && Plain(s[..at]) && Plain(s[at + 1..dot]) && Plain(s[dot + 1..])
  }

  ghost predicate MatchesEmailPattern(s: string) {
    exists at, dot :: EmailShapeAt(s, at, dot)
  }

  /** The validator as a scan: plain text, the first `@`, then plain text with a `.` neither first nor last. */
  function ValidEmail(s: string): bool {
    var at := IndexOf(s, '@');
    if at <= 0 then false
    else
      var host := s[at + 1..];
      && Plain(s[..at]) && Plain(host) && |host| >= 3
      && IndexOf(host[1..|host| - 1], '.') >= 0
  }

  /** The scan accepts exactly the strings the pattern matches. */
  lemma ValidEmailIff(s: string)
    ensures ValidEmail(s) <==> MatchesEmailPattern(s)
  {
    if ValidEmail(s) {
      ValidEmailMatches(s);
    }
    if MatchesEmailPattern(s) {
      var at, dot :| EmailShapeAt(s, at, dot);
      MatchIsValid(s, at, dot);
    }
  }

  lemma ValidEmailMatches(s: string)
    requires ValidEmail(s)
    ensures MatchesEmailPattern(s)
  {
    var at := IndexOf(s, '@');
    var host := s[at + 1..];
    var k := IndexOf(host[1..|host| - 1], '.');
    var dot := at + 2 + k;
    assert s[at + 1..dot] == host[..k + 1];
    assert s[dot + 1..] == host[k + 2..];
    assert EmailShapeAt(s, at, dot);
  }

  lemma MatchIsValid(s: string, at: int, dot: int)
    requires EmailShapeAt(s, at, dot)
    ensures ValidEmail(s)
  {
    assert IndexOf(s, '@') == at by {
      assert '@' !in s[..at];
    }
    var host := s[at + 1..];
    var d := dot - at - 1;
    assert Plain(host) by {
      assert host == s[at + 1..dot] + [s[dot]] + s[dot + 1..];
    }
    assert host[1..|host| - 1][d - 1] == '.';
  }

  /** An accepted address has exactly one `@`. */
  lemma ValidEmailSingleAt(s: string)
    requires ValidEmail(s)
    ensures forall i :: 0 <= i < |s| && s[i] == '@' ==> i == IndexOf(s, '@')
  {
    var at := IndexOf(s, '@');
    forall i | 0 <= i < |s| && s[i] == '@'
      ensures i == at
    {
    }
  }

  /** What is stored for an assigned email: the schema trims and lower-cases, and the save hook lower-cases again. */
  function StoredEmail(input: string): (e: string)
    ensures e == [] || (!IsSpace(e[0]) && !IsSpace(e[|e| - 1]))
    ensures forall i :: 0 <= i < |e| ==> !IsUpperAscii(e[i])
  {
    Lower(Lower(Trim(input)))
  }

  /** An address in the form the schema stores: no surrounding whitespace and no upper-case letter. */
  predicate Canonical(e: string) {
    && (e == [] || (!IsSpace(e[0]) && !IsSpace(e[|e| - 1])))
    && forall i :: 0 <= i < |e| ==> !IsUpperAscii(e[i])
  }

  /** The stored form is exactly the form that normalising leaves unchanged. */
  lemma CanonicalIffFixed(e: string)
    ensures Canonical(e) <==> StoredEmail(e) == e
  {
    if Canonical(e) {
      TrimKeepsEdgeless(e);
      assert Lower(e) == e;
    }
  }

  /** Normalising a stored email again changes nothing. */
  lemma StoredEmailIdempotent(input: string)
    ensures StoredEmail(StoredEmail(input)) == StoredEmail(input)
  {
    var e := StoredEmail(input);
    LowerIdempotent(Trim(input));
    TrimKeepsEdgeless(e);
    LowerIdempotent(e);
  }

  /** `s.slice(-4)`: the last four characters, or all of a shorter string. */
  function Last4(s: string): (r: string)
    ensures |r| == if |s| < 4 then |s| else 4
    ensures r == s[|s| - |r|..]
  {
    if |s| <= 4 then s else s[|s| - 4..]
  }

  /** The 8 random characters: `Math.floor(Math.random() * 32)` picks each position. */
  function RandomPart(picks: seq<nat>): (r: string)
    requires forall i :: 0 <= i < |picks| ==> picks[i] < |SUBSCRIBER_ID_CHARS|
    ensures |r| == |picks|
    ensures forall i :: 0 <= i < |r| ==> r[i] == SUBSCRIBER_ID_CHARS[picks[i]]
  {
    seq(|picks|, i requires 0 <= i < |picks| => SUBSCRIBER_ID_CHARS[picks[i]])
  }

  /** `SUB-${id}-${Date.now().toString(36).slice(-4)}`. */
  function SubscriberId(picks: seq<nat>, now: nat): (id: string)
    requires |picks| == 8 && forall i :: 0 <= i < |picks| ==> picks[i] < |SUBSCRIBER_ID_CHARS|
    ensures 13 < |id| <= 17
    ensures id[..4] == ID_PREFIX
    ensures forall i :: 4 <= i < 12 ==> id[i] in SUBSCRIBER_ID_CHARS
    ensures id[12] == '-'
    ensures id[13..] == Last4(NatToBase(now, 36))
  {
    ID_PREFIX + RandomPart(picks) + "-" + Last4(NatToBase(now, 36))
  }

  /** From 36^3 ms after the epoch on, the timestamp has at least four base-36 digits and the id 17 characters. */
  lemma SubscriberIdLength(picks: seq<nat>, now: nat)
    requires |picks| == 8 && forall i :: 0 <= i < |picks| ==> picks[i] < |SUBSCRIBER_ID_CHARS|
    requires now >= Pow(36, 3)
    ensures |SubscriberId(picks, now)| == 17
  {
    Base36Length(now, 4);
  }

  /** `generateSubscriberId`: the loop appends one alphabet character per pick. */
  method GenerateSubscriberId(picks: seq<nat>, now: nat) returns (id: string)
    requires |picks| == 8 && forall i :: 0 <= i < |picks| ==> picks[i] < |SUBSCRIBER_ID_CHARS|
    ensures id == SubscriberId(picks, now)
  {
    var part := "";
    for i := 0 to 8
      invariant part == RandomPart(picks[..i])
    {
      part := part + [SUBSCRIBER_ID_CHARS[picks[i]]];
    }
    assert picks[..8] == picks;
    id := ID_PREFIX + part + "-" + Last4(NatToBase(now, 36));
  }

  /** A new document for `new Subscriber({email})`: active by default, with a generated id. */
  function NewSubscriber(email: string, id: string, now: int): (s: Subscriber)
    ensures s.isActive && s.email == StoredEmail(email) && s.subscriberId == id
    ensures s.createdAt == now && s.updatedAt == now
  {
    Subscriber(StoredEmail(email), id, true, now, now)
  }

  /** `email` and `subscriberId` each carry a unique index. */
  predicate UniqueSubscribers(subs: seq<Subscriber>) {
    forall i, j :: 0 <= i < j < |subs| ==> subs[i].email != subs[j].email && subs[i].subscriberId != subs[j].subscriberId
  }

  /** A record the schema accepts: its email is valid and already normalised. */
  predicate Normalised(r: Subscriber) {
    ValidEmail(r.email) && Canonical(r.email)
  }

  /** Every stored record passed the schema. */
  predicate WellFormed(subs: seq<Subscriber>) {
    forall i :: 0 <= i < |subs| ==> Normalised(subs[i])
  }

  class SubscriberDb {
    var subs: seq<Subscriber>
  }
}

/**
 * The payload the reminder job posts to the Slack webhook for one due thread
 * (the pure part of `sendSlackMessage`): the German reminder sentence, the
 * severity colour, the Gmail deep link and the message timestamp.
 */
module Slack {
  import opened Wrappers
  import opened Decimal
  import opened Gmail
  import opened Triage

  /** The job's configuration, once loaded: the mailbox owner and the reminder day counts. */
  datatype Config = Config(email: string, reminders: seq<int>)

  datatype Action = Action(kind: string, text: string, url: string)

  /** `title` and `authorName` are `null` (None) when the header is missing. */
  datatype Attachment = Attachment(
    authorName: Option<string>,
    callbackId: string,
    fallback: string,
    title: Option<string>,
    text: string,
    color: string,
    ts: int,
    actions: seq<Action>)

  datatype Payload = Payload(text: string, attachments: seq<Attachment>)

  const LINK_BASE: string := "https://mail.google.com/mail/u/"
  const LINK_INBOX: string := "/#inbox/"

  /** The link that opens the thread in the owner's Gmail inbox. */
  function DeepLink(email: string, threadId: string): (url: string)
    ensures |url| == |LINK_BASE| + |email| + |LINK_INBOX| + |threadId|
    ensures url[..|LINK_BASE|] == LINK_BASE
    ensures url[|LINK_BASE|..|LINK_BASE| + |email|] == email
    ensures url[|LINK_BASE| + |email|..|LINK_BASE| + |email| + |LINK_INBOX|] == LINK_INBOX
    ensures url[|url| - |threadId|..] == threadId
  {
    LINK_BASE + email + LINK_INBOX + threadId
  }

  /** The text after the last `/` of `s` (all of `s` when it has none). */
  function LastSegment(s: string): string {
    if s == [] || s[|s| - 1] == '/' then [] else LastSegment(s[..|s| - 1]) + [s[|s| - 1]]
  }

  lemma {:induction false} LastSegmentAfterSlash(p: string, tail: string)
    requires '/' !in tail
    ensures LastSegment(p + "/" + tail) == tail
  {
    var s := p + "/" + tail;
    if tail != [] {
      var n := |tail| - 1;
      assert s[..|s| - 1] == p + "/" + tail[..n];
      assert s[|s| - 1] == tail[n];
      LastSegmentAfterSlash(p, tail[..n]);
      assert tail == tail[..n] + [tail[n]];
    }
  }

  /** A Gmail thread id (hex digits, no `/`) is read back as the text after the link's last `/`. */
  lemma DeepLinkNamesThread(email: string, threadId: string)
    requires '/' !in threadId
    ensures LastSegment(DeepLink(email, threadId)) == threadId
  {
    assert DeepLink(email, threadId) == (LINK_BASE + email + "/#inbox") + "/" + threadId;
    LastSegmentAfterSlash(LINK_BASE + email + "/#inbox", threadId);
  }

  /** For one owner, different threads get different links. */
  lemma DeepLinkInjective(email: string, t1: string, t2: string)
    requires DeepLink(email, t1) == DeepLink(email, t2)
    ensures t1 == t2
  {
    var p := LINK_BASE + email + LINK_INBOX;
    assert DeepLink(email, t1)[|p|..] == t1;
    assert DeepLink(email, t2)[|p|..] == t2;
  }

  /** `'warning'` when the rounded-down age equals the first configured day count, else `'danger'`. */
  function Color(age: int, reminders: seq<int>): (c: string)
    ensures c == "warning" || c == "danger"
    ensures c == "warning" <==> |reminders| > 0 && age == reminders[0]
  {
    // REMINDERS[0] is undefined for an empty list, and no number is strictly equal to it.
    if |reminders| > 0 && age == reminders[0] then "warning" else "danger"
  }

  /** `Tag` with the suffix `en` unless the age is exactly one day. */
  function DayNoun(age: int): (w: string)
    ensures w == "Tag" <==> age == 1
    ensures w != "Tag" ==> w == "Tagen"
  {
    "Tag" + (if age != 1 then "en" else "")
  }

  const TEXT_LEAD: string := "Folgende E-Mail ist seit "
  const TEXT_MIDDLE: string := " unbeantwortet im Posteingang von "
  const TEXT_TAIL: string :=
    ". Kann bitte jemand die Mail beantworten oder sie archivieren, wenn keine Antwort notwendig ist."

  /** The reminder sentence for an age in days and the mailbox owner. */
  function ReminderText(age: int, email: string): (text: string)
    ensures StartsWith(text, TEXT_LEAD)
    ensures |text| >= |email + TEXT_TAIL| && text[|text| - |email + TEXT_TAIL|..] == email + TEXT_TAIL
  {
    var tail := email + TEXT_TAIL;
    var text := TEXT_LEAD + (IntToString(age) + (" " + DayNoun(age) + (TEXT_MIDDLE + tail)));
    PrefixSplit(TEXT_LEAD, IntToString(age) + (" " + DayNoun(age) + (TEXT_MIDDLE + tail)));
    NestedSuffix(TEXT_LEAD, IntToString(age), " " + DayNoun(age), TEXT_MIDDLE, tail);
    text
  }

  lemma NestedSuffix(a: string, b: string, c: string, d: string, e: string)
    ensures var s := a + (b + (c + (d + e)));
      |s| >= |e| && s[|s| - |e|..] == e
  {
    var s := a + (b + (c + (d + e)));
    assert s == (a + b + c + d) + e;
    SuffixSplit(a + b + c + d, e);
  }

  predicate StartsWith(s: string, p: string) {
    |p| <= |s| && s[..|p|] == p
  }

  lemma PrefixSplit(p: string, q: string)
    ensures StartsWith(p + q, p) && (p + q)[|p|..] == q
  {
    assert (p + q)[..|p|] == p;
  }

  lemma SuffixSplit(p: string, q: string)
    ensures (p + q)[|p + q| - |q|..] == q && (p + q)[..|p + q| - |q|] == p
  {
  }

  /** Reads `TEXT_MIDDLE + owner + TEXT_TAIL` back to the owner. */
  function ParseOwner(s: string): Option<string> {
    if !StartsWith(s, TEXT_MIDDLE) then None
    else
      var r := s[|TEXT_MIDDLE|..];
      if |r| < |TEXT_TAIL| || r[|r| - |TEXT_TAIL|..] != TEXT_TAIL then None
      else Some(r[..|r| - |TEXT_TAIL|])
  }

  /** Reads what follows the number: the noun (plural or not), then the owner part. */
  function ParseAfterAge(s: string): Option<(bool, string)> {
    if !StartsWith(s, " Tag") then None
    else
      var s1 := s[4..];
      var plural := StartsWith(s1, "en");
      match ParseOwner(if plural then s1[2..] else s1)
      case None => None
      case Some(owner) => Some((plural, owner))
  }

  /**
   * Reads a reminder sentence back: the age, whether the noun was plural, and
   * the owner it names.
   */
  function ParseReminderText(text: string): Option<(int, bool, string)> {
    if !StartsWith(text, TEXT_LEAD) then None
    else
      match ReadInt(text[|TEXT_LEAD|..])
      case None => None
      case Some(p) =>
        match ParseAfterAge(p.1)
        case None => None
        case Some(q) => Some((p.0, q.0, q.1))
  }

  lemma ParseOwnerRoundTrip(email: string)
    ensures ParseOwner(TEXT_MIDDLE + (email + TEXT_TAIL)) == Some(email)
  {
    PrefixSplit(TEXT_MIDDLE, email + TEXT_TAIL);
    SuffixSplit(email, TEXT_TAIL);
  }

  lemma NounSplit(suffix: string, owner: string)
    ensures " " + ("Tag" + suffix) + owner == " Tag" + (suffix + owner)
  {
  }

  lemma ParseAfterNoun(plural: bool, owner: string, email: string)
    requires |owner| > 0 && owner[0] == ' '
    requires ParseOwner(owner) == Some(email)
    ensures ParseAfterAge(" Tag" + ((if plural then "en" else "") + owner)) == Some((plural, email))
  {
    var s1 := (if plural then "en" else "") + owner;
    var text := " Tag" + s1;
    PrefixSplit(" Tag", s1);
    assert StartsWith(text, " Tag") && text[4..] == s1;
    if plural {
      PrefixSplit("en", owner);
      assert StartsWith(s1, "en") && s1[2..] == owner;
    } else {
      assert s1 == owner;
      if |owner| >= 2 {
        assert owner[..2][0] == ' ';
      }
      assert !StartsWith(s1, "en");
    }
  }

  lemma ParseAfterAgeRoundTrip(age: int, email: string)
    ensures ParseAfterAge(" " + DayNoun(age) + (TEXT_MIDDLE + (email + TEXT_TAIL))) == Some((age != 1, email))
  {
    var owner := TEXT_MIDDLE + (email + TEXT_TAIL);
    var suffix := if age != 1 then "en" else "";
    assert DayNoun(age) == "Tag" + suffix;
    NounSplit(suffix, owner);
    ParseOwnerRoundTrip(email);
    assert owner[0] == TEXT_MIDDLE[0] == ' ';
    ParseAfterNoun(age != 1, owner, email);
  }

  /** The sentence carries the age, the right singular or plural noun, and the owner. */
  lemma ReminderTextRoundTrip(age: int, email: string)
    ensures ParseReminderText(ReminderText(age, email)) == Some((age, age != 1, email))
  {
    var s := " " + DayNoun(age) + (TEXT_MIDDLE + (email + TEXT_TAIL));
    PrefixSplit(TEXT_LEAD, IntToString(age) + s);
    ReadIntRoundTrip(age, s);
    ParseAfterAgeRoundTrip(age, email);
  }

  /**
   * `parseInt(internalDate / 1000, 10)`: seconds, truncated toward zero (the
   * digits before the decimal point are kept, sign included).
   */
  function SecondsOf(millis: int): (t: int)
    ensures millis >= 0 ==> t * 1000 <= millis < (t + 1) * 1000
    ensures millis < 0 ==> (t - 1) * 1000 < millis <= t * 1000
  {
    if millis >= 0 then millis / 1000 else -((-millis) / 1000)
  }

  /** The Slack message body `sendSlackMessage` builds for a thread at time `now`. */
  function ReminderPayload(t: Thread, now: int, config: Config): (p: Payload)
    requires WellFormed(t)
    ensures |p.attachments| == 1 && |p.attachments[0].actions| == 1
    ensures var a := p.attachments[0];
      && a.fallback == DeepLink(config.email, LastMessage(t).threadId)
      && a.actions[0] == Action("button", "Öffnen", a.fallback)
      && a.callbackId == LastMessage(t).threadId
      && a.text == LastMessage(t).snippet
      && a.title == GetHeaderField(LastMessage(t).headers, "subject")
      && a.authorName == GetHeaderField(LastMessage(t).headers, "from")
      && a.color == (if |config.reminders| > 0 && AgeDays(Elapsed(now, LastMessage(t))) == config.reminders[0]
                     then "warning" else "danger")
      && a.ts == SecondsOf(LastMessage(t).internalDate)
      && (LastMessage(t).internalDate >= 0 ==>
            a.ts * 1000 <= LastMessage(t).internalDate < (a.ts + 1) * 1000)
    ensures var age := AgeDays(Elapsed(now, LastMessage(t)));
      && p.text == ReminderText(age, config.email)
      && ParseReminderText(p.text) == Some((age, age != 1, config.email))
  {
    var m := LastMessage(t);
    var ago := Elapsed(now, m);
    var url := DeepLink(config.email, m.threadId);
    var age := AgeDays(ago);
    ReminderTextRoundTrip(age, config.email);
    Payload(
      ReminderText(age, config.email),
      [Attachment(
        GetHeaderField(m.headers, "from"),
        m.threadId,
        url,
        GetHeaderField(m.headers, "subject"),
        m.snippet,
        Color(age, config.reminders),
        SecondsOf(m.internalDate),
        [Action("button", "Öffnen", url)])])
  }

  /**
   * For a due thread the colour is `'warning'` exactly when the first
   * configured window is the one holding its age.
   */
  lemma RelevantWarningIffFirstWindow(t: Thread, now: int, config: Config)
    requires WellFormed(t)
    requires IsRelevant(t, now, config.reminders)
    ensures ReminderPayload(t, now, config).attachments[0].color == "warning"
        <==> InWindow(Elapsed(now, LastMessage(t)), config.reminders[0])
  {
    var ago := Elapsed(now, LastMessage(t));
    RelevantIffConfiguredAge(t, now, config.reminders);
  }
}

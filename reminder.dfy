/**
 * One run of the reminder job after the threads have been fetched: keep the
 * due threads, in the order fetched, and build one Slack payload for each.
 */
module Reminder {
  import opened Gmail
  import opened Triage
  import opened Slack

  /**
   * The payloads of one run, in input order: the k-th payload is built from
   * the k-th kept thread, so each due thread gets exactly one.
   */
  function RunReminder(threads: seq<Thread>, now: int, config: Config): (r: seq<Payload>)
    requires forall t :: t in threads ==> WellFormed(t)
    ensures var due := FilterRelevant(threads, now, config.reminders);
      && |r| == |due|
      && forall k :: 0 <= k < |r| ==> r[k] == ReminderPayload(due[k], now, config)
  {
    var due := FilterRelevant(threads, now, config.reminders);
    seq(|due|, k requires 0 <= k < |due| => ReminderPayload(due[k], now, config))
  }

  /** Every payload of a run is built from a due input thread. */
  lemma RunReminderFromDueThreads(threads: seq<Thread>, now: int, config: Config, k: nat)
    requires forall t :: t in threads ==> WellFormed(t)
    requires k < |RunReminder(threads, now, config)|
    ensures exists t :: && t in threads
                        && WellFormed(t)
                        && IsRelevant(t, now, config.reminders)
                        && RunReminder(threads, now, config)[k] == ReminderPayload(t, now, config)
  {
    var due := FilterRelevant(threads, now, config.reminders);
    assert due[k] in due;
  }

  /** The count the run reports is the number of due threads among those fetched. */
  lemma RunReminderCount(threads: seq<Thread>, now: int, config: Config)
    requires forall t :: t in threads ==> WellFormed(t)
    ensures |RunReminder(threads, now, config)| == |RelevantPositions(threads, now, config.reminders)|
  {
    FilterCount(threads, now, config.reminders);
  }

  /** Thresholds [3, 7]: 3.5 days is a first-level reminder, 7.2 days an overdue one, 8 days none. */
  lemma ScenarioThreeAndSeven(now: int)
    ensures var cfg := Config("owner@example.org", [3, 7]);
      var early := Thread("a", [Message("a", now - 3 * ONE_DAY - ONE_DAY / 2, ["INBOX"], "", [])]);
      var late := Thread("b", [Message("b", now - 7 * ONE_DAY - ONE_DAY / 5, ["INBOX"], "", [])]);
      var gone := Thread("c", [Message("c", now - 8 * ONE_DAY, ["INBOX"], "", [])]);
      && IsRelevant(early, now, cfg.reminders)
      && ReminderPayload(early, now, cfg).attachments[0].color == "warning"
      && IsRelevant(late, now, cfg.reminders)
      && ReminderPayload(late, now, cfg).attachments[0].color == "danger"
      && !IsRelevant(gone, now, cfg.reminders)
  {
    var cfg := Config("owner@example.org", [3, 7]);
    var early := Thread("a", [Message("a", now - 3 * ONE_DAY - ONE_DAY / 2, ["INBOX"], "", [])]);
    var late := Thread("b", [Message("b", now - 7 * ONE_DAY - ONE_DAY / 5, ["INBOX"], "", [])]);
    var gone := Thread("c", [Message("c", now - 8 * ONE_DAY, ["INBOX"], "", [])]);
    assert "SENT" !in ["INBOX"];
    assert Elapsed(now, LastMessage(early)) == 3 * ONE_DAY + ONE_DAY / 2;
    assert Elapsed(now, LastMessage(late)) == 7 * ONE_DAY + ONE_DAY / 5;
    assert Elapsed(now, LastMessage(gone)) == 8 * ONE_DAY;
    RelevantIffConfiguredAge(early, now, cfg.reminders);
    RelevantIffConfiguredAge(late, now, cfg.reminders);
    RelevantIffConfiguredAge(gone, now, cfg.reminders);
  }
}

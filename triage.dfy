/**
 * The relevance filter of the reminder job: a thread is due when its last
 * message is not labelled SENT and its age lies strictly inside one of the
 * configured day windows. The clock and the reminder list are parameters.
 */
module Triage {
  import opened Gmail

  /** Milliseconds in a day. */
  const ONE_DAY: int := 24 * 60 * 60 * 1000

  /** Milliseconds elapsed from the message's timestamp to `now`. */
  function Elapsed(now: int, m: Message): (ago: int)
    ensures m.internalDate + ago == now
    ensures ago > 0 <==> m.internalDate < now
  {
    now - m.internalDate
  }

  /** `Math.floor(ago / ONE_DAY)`: whole days elapsed, rounded down, negative ages included. */
  function AgeDays(ago: int): (d: int)
    ensures d * ONE_DAY <= ago < (d + 1) * ONE_DAY
  {
    ago / ONE_DAY
  }

  /**
   * Both bounds strict: an age of exactly `cv` or `cv + 1` days is outside
   * window `cv`. So an age lies in window `cv` exactly when it is `cv` days
   * rounded down and not a whole number of days.
   */
  predicate InWindow(ago: int, cv: int)
    ensures InWindow(ago, cv) <==> AgeDays(ago) == cv && ago % ONE_DAY != 0
  {
    assert ago == AgeDays(ago) * ONE_DAY + ago % ONE_DAY;
    ago < (cv + 1) * ONE_DAY && ago > cv * ONE_DAY
  }

  /**
   * The `reduce` with `||` over the reminder list, from the accumulator `acc`:
   * true iff `acc` is, or some entry's window holds the age.
   */
  function FoldWindows(acc: bool, reminders: seq<int>, ago: int): (b: bool)
    ensures b <==> acc || exists i :: 0 <= i < |reminders| && InWindow(ago, reminders[i])
    decreases |reminders|
  {
    if reminders == [] then acc
    else
      var b := FoldWindows(acc || InWindow(ago, reminders[0]), reminders[1..], ago);
      assert forall i :: 1 <= i < |reminders| ==> reminders[1..][i - 1] == reminders[i];
      b
  }

  /** `isInRelevantDate`: some configured window holds the age. */
  function InRelevantDate(ago: int, reminders: seq<int>): (b: bool)
    ensures b <==> exists i :: 0 <= i < |reminders| && InWindow(ago, reminders[i])
  {
    FoldWindows(false, reminders, ago)
  }

  /** `isRelevant`: the last message is not SENT and its age is in a window. */
  predicate IsRelevant(t: Thread, now: int, reminders: seq<int>)
    requires WellFormed(t)
    ensures IsRelevant(t, now, reminders)
        <==> && "SENT" !in LastMessage(t).labelIds
             && exists i :: 0 <= i < |reminders| && InWindow(Elapsed(now, LastMessage(t)), reminders[i])
  {
    var m := LastMessage(t);
    IndexOf(m.labelIds, "SENT") == -1 && InRelevantDate(Elapsed(now, m), reminders)
  }

  lemma SentIsNeverRelevant(t: Thread, now: int, reminders: seq<int>)
    requires WellFormed(t)
    requires "SENT" in LastMessage(t).labelIds
    ensures !IsRelevant(t, now, reminders)
  {
  }

  /** The window `cv` opens just after `cv` days and closes just before `cv + 1` days. */
  lemma WindowBoundaries(cv: int)
    ensures !InWindow(cv * ONE_DAY, cv)
    ensures !InWindow((cv + 1) * ONE_DAY, cv)
    ensures InWindow(cv * ONE_DAY + 1, cv)
    ensures InWindow((cv + 1) * ONE_DAY - 1, cv)
  {
  }

  /** Relevance depends only on which day counts are configured, not on their order or repetition. */
  lemma {:induction false} ReminderSetDecides(ago: int, r1: seq<int>, r2: seq<int>)
    requires forall c :: c in r1 <==> c in r2
    ensures InRelevantDate(ago, r1) == InRelevantDate(ago, r2)
  {
    if InRelevantDate(ago, r1) {
      var i :| 0 <= i < |r1| && InWindow(ago, r1[i]);
      assert r1[i] in r2;
      var j :| 0 <= j < |r2| && r2[j] == r1[i];
    }
    if InRelevantDate(ago, r2) {
      var i :| 0 <= i < |r2| && InWindow(ago, r2[i]);
      assert r2[i] in r1;
      var j :| 0 <= j < |r1| && r1[j] == r2[i];
    }
  }

  lemma ReminderPermutationIrrelevant(t: Thread, now: int, r1: seq<int>, r2: seq<int>)
    requires WellFormed(t)
    requires multiset(r1) == multiset(r2)
    ensures IsRelevant(t, now, r1) == IsRelevant(t, now, r2)
  {
    forall c
      ensures c in r1 <==> c in r2
    {
      assert c in r1 <==> c in multiset(r1);
      assert c in r2 <==> c in multiset(r2);
    }
    ReminderSetDecides(Elapsed(now, LastMessage(t)), r1, r2);
  }

  /** With non-negative day counts, a message from now or the future is never due. */
  lemma NonPositiveAgeNeverRelevant(ago: int, reminders: seq<int>)
    requires forall i :: 0 <= i < |reminders| ==> reminders[i] >= 0
    requires ago <= 0
    ensures !InRelevantDate(ago, reminders)
  {
  }

  /** ... nor is one younger than the first day count, when the counts ascend. */
  lemma BeforeFirstThresholdNeverRelevant(ago: int, reminders: seq<int>)
    requires |reminders| > 0
    requires forall i, j :: 0 <= i < j < |reminders| ==> reminders[i] <= reminders[j]
    requires AgeDays(ago) < reminders[0]
    ensures !InRelevantDate(ago, reminders)
  {
    forall i | 0 <= i < |reminders|
      ensures !InWindow(ago, reminders[i])
    {
      assert reminders[0] <= reminders[i];
    }
  }

  /** For a due thread, the rounded-down age is a configured day count whose window holds the age. */
  lemma RelevantAgeIsConfigured(t: Thread, now: int, reminders: seq<int>)
    requires WellFormed(t)
    requires IsRelevant(t, now, reminders)
    ensures exists i :: && 0 <= i < |reminders|
                        && reminders[i] == AgeDays(Elapsed(now, LastMessage(t)))
                        && InWindow(Elapsed(now, LastMessage(t)), reminders[i])
  {
    var ago := Elapsed(now, LastMessage(t));
    var i :| 0 <= i < |reminders| && InWindow(ago, reminders[i]);
  }

  /** Relevance restated without windows: not SENT, not a whole number of days, and a configured age. */
  lemma RelevantIffConfiguredAge(t: Thread, now: int, reminders: seq<int>)
    requires WellFormed(t)
    ensures IsRelevant(t, now, reminders)
        <==> && "SENT" !in LastMessage(t).labelIds
             && Elapsed(now, LastMessage(t)) % ONE_DAY != 0
             && AgeDays(Elapsed(now, LastMessage(t))) in reminders
  {
    var ago := Elapsed(now, LastMessage(t));
    if IsRelevant(t, now, reminders) {
      RelevantAgeIsConfigured(t, now, reminders);
      var i :| 0 <= i < |reminders| && InWindow(ago, reminders[i]);
    }
    if "SENT" !in LastMessage(t).labelIds && ago % ONE_DAY != 0 && AgeDays(ago) in reminders {
      var i :| 0 <= i < |reminders| && reminders[i] == AgeDays(ago);
    }
  }

  /** `threads.filter(isRelevant)`. */
  function FilterRelevant(threads: seq<Thread>, now: int, reminders: seq<int>): (r: seq<Thread>)
    requires forall t :: t in threads ==> WellFormed(t)
    ensures |r| <= |threads|
    ensures forall t :: t in r <==> t in threads && IsRelevant(t, now, reminders)
  {
    if threads == [] then []
    else
      var rest := FilterRelevant(threads[1..], now, reminders);
      if IsRelevant(threads[0], now, reminders) then [threads[0]] + rest else rest
  }

  /** Filtering distributes over concatenation: the kept threads stay in input order. */
  lemma {:induction false} FilterConcat(a: seq<Thread>, b: seq<Thread>, now: int, reminders: seq<int>)
    requires forall t :: t in a ==> WellFormed(t)
    requires forall t :: t in b ==> WellFormed(t)
    ensures FilterRelevant(a + b, now, reminders)
         == FilterRelevant(a, now, reminders) + FilterRelevant(b, now, reminders)
  {
    if a != [] {
      var ab := a + b;
      assert ab != [] && ab[0] == a[0];
      assert ab[1..] == a[1..] + b;
      FilterConcat(a[1..], b, now, reminders);
      var fa, fb := FilterRelevant(a[1..], now, reminders), FilterRelevant(b, now, reminders);
      if IsRelevant(a[0], now, reminders) {
        assert FilterRelevant(ab, now, reminders) == [a[0]] + (fa + fb);
        assert [a[0]] + (fa + fb) == ([a[0]] + fa) + fb;
      }
    } else {
      assert a + b == b;
    }
  }

  /** Positions of the due threads. */
  ghost function RelevantPositions(threads: seq<Thread>, now: int, reminders: seq<int>): set<nat>
    requires forall t :: t in threads ==> WellFormed(t)
  {
    set i: nat | i < |threads| && IsRelevant(threads[i], now, reminders)
  }

  lemma PositionsSnoc(front: seq<Thread>, last: Thread, now: int, reminders: seq<int>)
    requires forall t :: t in front ==> WellFormed(t)
    requires WellFormed(last)
    ensures RelevantPositions(front + [last], now, reminders)
         == RelevantPositions(front, now, reminders)
          + (if IsRelevant(last, now, reminders) then {|front|} else {})
  {
    var s := front + [last];
    forall i: nat | i < |front|
      ensures s[i] == front[i]
    {
    }
    assert s[|front|] == last;
  }

  /** The number of kept threads is the number of positions holding a due thread. */
  lemma {:induction false} FilterCount(threads: seq<Thread>, now: int, reminders: seq<int>)
    requires forall t :: t in threads ==> WellFormed(t)
    ensures |FilterRelevant(threads, now, reminders)| == |RelevantPositions(threads, now, reminders)|
  {
    if threads != [] {
      var n := |threads| - 1;
      var front, last := threads[..n], threads[n];
      assert threads == front + [last];
      FilterConcat(front, [last], now, reminders);
      FilterCount(front, now, reminders);
      PositionsSnoc(front, last, now, reminders);
      assert n !in RelevantPositions(front, now, reminders);
    }
  }
}

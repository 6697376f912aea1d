/** The daily sender (daily_mailer.py): a progress record that says which day
    slot goes out next, a gate that decides whether today's run sends anything,
    a delivery step retried with exponential backoff, and the advance of the
    record after a confirmed delivery.

    The clock, the SMTP session and the files are parameters: `today` is the
    ISO date of the run, `dir` holds the contents of data/summaries by file name,
    and `smtp` lists, attempt by attempt, whether the mail server accepted the
    message. A successful attempt is `true`. */
module Mailer {
  import opened Records

  /** `send_email`'s default number of attempts. */
  const DefaultRetries: int := 3

  /** What load_progress writes when progress.json does not exist. */
  const DefaultProgress: Progress := InitialProgress(20)

  // ---------------------------------------------------------------------------
  // The gate (should_send_today) and the advance (update_progress)
  // ---------------------------------------------------------------------------

  /** The branch of should_send_today a record takes, tested in this order. */
  datatype GateDecision = AllDone | SentToday | JustFinished | Due

  function Gate(p: Progress, today: Date): (g: GateDecision)
    ensures g == Due <==> !p.completed && p.lastSentDate != Some(today) && p.currentDay <= p.totalDays
    ensures g == JustFinished ==> !p.completed && p.currentDay > p.totalDays
  {
    if p.completed then AllDone
    else if p.lastSentDate == Some(today) then SentToday
    else if p.currentDay > p.totalDays then JustFinished
    else Due
  }

  /** The record after update_progress on `today`. */
  function Advance(p: Progress, today: Date): Progress {
    var day := p.currentDay + 1;
    p.(currentDay := day,
       lastSentDate := Some(today),
       sentCount := p.sentCount + 1,
       completed := if day > p.totalDays then true else p.completed)
  }

  lemma AdvanceFields(p: Progress, today: Date)
    ensures Advance(p, today).currentDay == p.currentDay + 1
    ensures Advance(p, today).sentCount == p.sentCount + 1
    ensures Advance(p, today).lastSentDate == Some(today)
    ensures Advance(p, today).totalDays == p.totalDays
    ensures Advance(p, today).completed == (p.completed || p.currentDay + 1 > p.totalDays)
  {
  }

  /** Once a day went out, the gate refuses every further run on the same date. */
  lemma AdvanceClosesTheDay(p: Progress, today: Date)
    ensures Gate(Advance(p, today), today) in {AllDone, SentToday}
  {
  }

  /** The state the records stay in when they start from the default or from
      the generator's initial record: the day cursor counts the deliveries,
      stays within the slots plus one, and `completed` is set only past the end. */
  ghost predicate Consistent(p: Progress) {
    && 1 <= p.currentDay <= p.totalDays + 1
    && p.sentCount == p.currentDay - 1
    && (p.completed ==> p.currentDay == p.totalDays + 1)
    && (p.lastSentDate.None? <==> p.sentCount == 0)
  }

  lemma InitialIsConsistent(totalDays: int)
    requires totalDays >= 0
    ensures Consistent(InitialProgress(totalDays))
  {
  }

  // ---------------------------------------------------------------------------
  // Delivery with retries (send_email)
  // ---------------------------------------------------------------------------

  /** The pauses 2^0, 2^1, ..., 2^(k-1) seconds. */
  function Backoff(k: nat): (w: seq<nat>)
    ensures |w| == k
    ensures forall i :: 0 <= i < k ==> w[i] == Pow2(i)
  {
    if k == 0 then [] else Backoff(k - 1) + [Pow2(k - 1)]
  }

  /** The result of the retry loop: whether an attempt went through, how many
      attempts were made, and the pauses taken between them. */
  datatype Delivery = Delivery(sent: bool, attempts: nat, waits: seq<nat>)

  /** The retry loop from attempt `a` on, with `n` attempts in all. */
  function DeliverFrom(outcomes: seq<bool>, n: int, a: nat): Delivery
    requires n <= |outcomes|
    decreases n - a
  {
    if a >= n then Delivery(false, a, [])
    else if outcomes[a] then Delivery(true, a + 1, [])
    else if a < n - 1 then
      var r := DeliverFrom(outcomes, n, a + 1);
      Delivery(r.sent, r.attempts, [Pow2(a)] + r.waits)
    else Delivery(false, a + 1, [])
  }

  /** From attempt `a` on, the loop succeeds exactly when a later attempt is
      accepted, stops at the first accepted one, and pauses 2^attempt after each
      failed attempt but the last. */
  lemma {:induction false} DeliverFromStopsAtFirstSuccess(outcomes: seq<bool>, n: int, a: nat)
    requires n <= |outcomes|
    ensures var d := DeliverFrom(outcomes, n, a);
            && (d.sent <==> exists i :: a <= i < n && outcomes[i])
            && d.attempts <= (if a < n then n else a)
            && (d.sent ==> a < d.attempts <= n && outcomes[d.attempts - 1])
            && (forall i :: a <= i < d.attempts - 1 ==> !outcomes[i])
            && (!d.sent ==> d.attempts == if a < n then n else a)
            && |d.waits| == (if d.attempts > a then d.attempts - 1 - a else 0)
            && (forall j :: 0 <= j < |d.waits| ==> d.waits[j] == Pow2(a + j))
    decreases n - a
  {
    if a < n && !outcomes[a] && a < n - 1 {
      DeliverFromStopsAtFirstSuccess(outcomes, n, a + 1);
      var r := DeliverFrom(outcomes, n, a + 1);
      var d := DeliverFrom(outcomes, n, a);
      assert d == Delivery(r.sent, r.attempts, [Pow2(a)] + r.waits);
      assert (exists i :: a <= i < n && outcomes[i]) <==> (exists i :: a + 1 <= i < n && outcomes[i]);
    }
  }

  /** send_email's loop over `n` attempts: it stops at the first accepted attempt,
      reports success exactly when one of the `n` attempts went through, and
      pauses 2^attempt seconds after every failed attempt but the last. With
      `n <= 0` it makes no attempt at all. */
  function Deliver(outcomes: seq<bool>, n: int): (d: Delivery)
    requires n <= |outcomes|
    ensures d.sent <==> exists i :: 0 <= i < n && outcomes[i]
    ensures d.attempts <= if n > 0 then n else 0
    ensures d.sent ==> 0 < d.attempts <= n && outcomes[d.attempts - 1]
    ensures forall i :: 0 <= i < d.attempts - 1 ==> !outcomes[i]
    ensures !d.sent ==> d.attempts == if n > 0 then n else 0
    ensures d.waits == Backoff(if d.attempts > 0 then d.attempts - 1 else 0)
  {
    DeliverFromStopsAtFirstSuccess(outcomes, n, 0);
    DeliverFrom(outcomes, n, 0)
  }

  /** Three failed attempts leave two pauses, of one and of two seconds. */
  lemma ThreeFailuresWaitOneThenTwo(outcomes: seq<bool>)
    requires |outcomes| >= 3 && !outcomes[0] && !outcomes[1] && !outcomes[2]
    ensures !Deliver(outcomes, 3).sent && Deliver(outcomes, 3).attempts == 3
    ensures Deliver(outcomes, 3).waits == [1, 2]
  {
    var d := Deliver(outcomes, 3);
    assert Pow2(1) == 2;
    assert d.waits == [Pow2(0), Pow2(1)];
  }

  /** The loop of send_email with the SMTP exchange replaced by `outcomes`:
      attempt `i` succeeds exactly when `outcomes[i]` holds. The pauses are
      recorded instead of slept. */
  method SendEmail(retryCount: int, outcomes: seq<bool>) returns (sent: bool, waits: seq<nat>)
    requires retryCount <= |outcomes|
    ensures sent == Deliver(outcomes, retryCount).sent
    ensures waits == Deliver(outcomes, retryCount).waits
  {
    waits := [];
    var attempt: nat := 0;
    while attempt < retryCount
      invariant retryCount > 0 ==> attempt <= retryCount
      invariant retryCount <= 0 ==> attempt == 0
      invariant var r := DeliverFrom(outcomes, retryCount, attempt);
                DeliverFrom(outcomes, retryCount, 0) == Delivery(r.sent, r.attempts, waits + r.waits)
    {
      if outcomes[attempt] {
        assert DeliverFrom(outcomes, retryCount, attempt) == Delivery(true, attempt + 1, []);
        assert waits + [] == waits;
        sent := true;
        return;
      }
      if attempt < retryCount - 1 {
        ghost var r := DeliverFrom(outcomes, retryCount, attempt + 1);
        assert DeliverFrom(outcomes, retryCount, attempt) == Delivery(r.sent, r.attempts, [Pow2(attempt)] + r.waits);
        assert waits + ([Pow2(attempt)] + r.waits) == (waits + [Pow2(attempt)]) + r.waits;
        waits := waits + [Pow2(attempt)];
      } else {
        assert DeliverFrom(outcomes, retryCount, attempt) == Delivery(false, attempt + 1, []);
        assert waits + [] == waits;
        sent := false;
        return;
      }
      attempt := attempt + 1;
    }
    assert DeliverFrom(outcomes, retryCount, attempt) == Delivery(false, attempt, []);
    assert waits + [] == waits;
    sent := false;
  }

  // ---------------------------------------------------------------------------
  // One run (DailyMailer.run) as a function of the record it starts from
  // ---------------------------------------------------------------------------

  /** load_summary: the contents of data/summaries/day<NN>_<subject>.md, if present. */
  function LoadSummary(dir: map<string, string>, day: int, subject: Subject): Option<string> {
    var name := SummaryFileName(day, subject);
    if name in dir then Some(dir[name]) else None
  }

  /** Python truthiness of a loaded summary: present and not empty. */
  predicate Truthy(s: Option<string>) {
    s.Some? && s.value != ""
  }

  /** How a run ended. `RenderFailed` is the exception create_html_email raises
      when it divides by a total of zero days. */
  datatype RunOutcome =
    | AlreadyCompleted
    | AlreadySentToday
    | MarkedCompleted
    | SummaryMissing(day: int)
    | RenderFailed(day: int)
    | DeliveryFailed(day: int)
    | Delivered(day: int)

  /** The outcome of a run, the record it leaves, and the pauses it took. */
  datatype Step = Step(outcome: RunOutcome, next: Progress, waits: seq<nat>)

  function SkipOutcome(g: GateDecision): RunOutcome {
    match g
    case AllDone => AlreadyCompleted
    case SentToday => AlreadySentToday
    case _ => MarkedCompleted
  }

  function RunSpec(p: Progress, today: Date, dir: map<string, string>, smtp: seq<bool>): Step
    requires DefaultRetries <= |smtp|
  {
    match Gate(p, today)
    case AllDone => Step(AlreadyCompleted, p, [])
    case SentToday => Step(AlreadySentToday, p, [])
    case JustFinished => Step(MarkedCompleted, p.(completed := true), [])
    case Due =>
      var day := p.currentDay;
      if !Truthy(LoadSummary(dir, day, Pharmacology)) || !Truthy(LoadSummary(dir, day, Anatomy)) then
        Step(SummaryMissing(day), p, [])
      else if p.totalDays == 0 then
        Step(RenderFailed(day), p, [])
      else
        var d := Deliver(smtp, DefaultRetries);
        if d.sent then Step(Delivered(day), Advance(p, today), d.waits)
        else Step(DeliveryFailed(day), p, d.waits)
  }

  /** A completed record skips every run and is left as it is. */
  lemma CompletedSkips(p: Progress, today: Date, dir: map<string, string>, smtp: seq<bool>)
    requires DefaultRetries <= |smtp| && p.completed
    ensures RunSpec(p, today, dir, smtp) == Step(AlreadyCompleted, p, [])
  {
  }

  /** A record already sent on `today` skips, whatever its current day. */
  lemma SentTodaySkips(p: Progress, today: Date, dir: map<string, string>, smtp: seq<bool>)
    requires DefaultRetries <= |smtp|
    requires !p.completed && p.lastSentDate == Some(today)
    ensures RunSpec(p, today, dir, smtp) == Step(AlreadySentToday, p, [])
  {
  }

  /** Running past the last day marks the record completed, and every later run,
      on any date, then skips without touching it. */
  lemma FinishingIsIdempotent(p: Progress, today: Date, dir: map<string, string>, smtp: seq<bool>,
                              later: Date, dir': map<string, string>, smtp': seq<bool>)
    requires DefaultRetries <= |smtp| && DefaultRetries <= |smtp'|
    requires !p.completed && p.lastSentDate != Some(today) && p.currentDay > p.totalDays
    ensures RunSpec(p, today, dir, smtp) == Step(MarkedCompleted, p.(completed := true), [])
    ensures RunSpec(p.(completed := true), later, dir', smtp') == Step(AlreadyCompleted, p.(completed := true), [])
  {
  }

  /** The record changes only when the run marks it completed or delivers a day. */
  lemma OnlyFinishOrDeliveryChangesProgress(p: Progress, today: Date, dir: map<string, string>, smtp: seq<bool>)
    requires DefaultRetries <= |smtp|
    ensures var s := RunSpec(p, today, dir, smtp);
            s.next != p ==> s.outcome == MarkedCompleted || s.outcome.Delivered?
  {
  }

  /** A delivery sends the current day, needs both summaries and an accepted
      attempt, and advances the record by exactly one day. */
  lemma DeliveryAdvancesByOne(p: Progress, today: Date, dir: map<string, string>, smtp: seq<bool>)
    requires DefaultRetries <= |smtp|
    requires RunSpec(p, today, dir, smtp).outcome.Delivered?
    ensures var s := RunSpec(p, today, dir, smtp);
            && s.outcome.day == p.currentDay
            && Gate(p, today) == Due
            && Truthy(LoadSummary(dir, p.currentDay, Pharmacology))
            && Truthy(LoadSummary(dir, p.currentDay, Anatomy))
            && (exists i :: 0 <= i < DefaultRetries && smtp[i])
            && s.next == Advance(p, today)
  {
  }

  /** A missing or empty summary, or a delivery that failed on every attempt,
      leaves the record exactly as it was. */
  lemma FailuresLeaveProgress(p: Progress, today: Date, dir: map<string, string>, smtp: seq<bool>)
    requires DefaultRetries <= |smtp| && Gate(p, today) == Due
    requires || !Truthy(LoadSummary(dir, p.currentDay, Pharmacology))
             || !Truthy(LoadSummary(dir, p.currentDay, Anatomy))
             || (forall i :: 0 <= i < DefaultRetries ==> !smtp[i])
    ensures RunSpec(p, today, dir, smtp).next == p
  {
  }

  /** However often the job runs on one date, at most one of those runs delivers. */
  lemma AtMostOneDeliveryPerDay(p: Progress, today: Date, dir: map<string, string>, smtp: seq<bool>,
                                dir': map<string, string>, smtp': seq<bool>)
    requires DefaultRetries <= |smtp| && DefaultRetries <= |smtp'|
    requires RunSpec(p, today, dir, smtp).outcome.Delivered?
    ensures var q := RunSpec(p, today, dir, smtp).next;
            RunSpec(q, today, dir', smtp').outcome in {AlreadyCompleted, AlreadySentToday}
            && RunSpec(q, today, dir', smtp').next == q
  {
  }

  lemma RunKeepsConsistent(p: Progress, today: Date, dir: map<string, string>, smtp: seq<bool>)
    requires DefaultRetries <= |smtp| && Consistent(p)
    ensures Consistent(RunSpec(p, today, dir, smtp).next)
    ensures RunSpec(p, today, dir, smtp).outcome.Delivered? ==>
              1 <= RunSpec(p, today, dir, smtp).outcome.day <= p.totalDays
  {
  }

  /** A run moves the cursor by one day exactly when it delivers, and that day is
      the one it delivers; `sent_count` moves with the cursor and `total_days`
      stays. */
  lemma RunMovesByOne(p: Progress, today: Date, dir: map<string, string>, smtp: seq<bool>)
    requires DefaultRetries <= |smtp|
    ensures var s := RunSpec(p, today, dir, smtp);
            && s.next.currentDay == (if s.outcome.Delivered? then p.currentDay + 1 else p.currentDay)
            && (s.outcome.Delivered? ==> s.outcome.day == p.currentDay)
            && s.next.sentCount - p.sentCount == s.next.currentDay - p.currentDay
            && s.next.totalDays == p.totalDays
  {
  }

  // ---------------------------------------------------------------------------
  // Many runs, one after the other
  // ---------------------------------------------------------------------------

  /** One invocation of the job: its date, the summaries it finds, its SMTP outcomes. */
  datatype Invocation = Invocation(today: Date, dir: map<string, string>, smtp: seq<bool>)

  predicate Scripted(runs: seq<Invocation>) {
    forall i :: 0 <= i < |runs| ==> DefaultRetries <= |runs[i].smtp|
  }

  /** The record after the runs, in order. */
  function Replay(p: Progress, runs: seq<Invocation>): Progress
    requires Scripted(runs)
    decreases |runs|
  {
    if runs == [] then p
    else Replay(RunSpec(p, runs[0].today, runs[0].dir, runs[0].smtp).next, runs[1..])
  }

  /** The days the runs delivered, in order. */
  function DeliveredDays(p: Progress, runs: seq<Invocation>): seq<int>
    requires Scripted(runs)
    decreases |runs|
  {
    if runs == [] then []
    else
      var s := RunSpec(p, runs[0].today, runs[0].dir, runs[0].smtp);
      (if s.outcome.Delivered? then [s.outcome.day] else []) + DeliveredDays(s.next, runs[1..])
  }

  /** lo, lo + 1, ..., hi - 1. */
  function Interval(lo: int, hi: int): (s: seq<int>)
    ensures |s| == if lo < hi then hi - lo else 0
    ensures forall i :: 0 <= i < |s| ==> s[i] == lo + i
    decreases hi - lo
  {
    if lo >= hi then [] else [lo] + Interval(lo + 1, hi)
  }

  /** Across any sequence of runs the days go out in order, none skipped and none
      repeated, the cursor never moves back, and `sent_count` grows with it. */
  lemma {:induction false} ReplayDeliversInOrder(p: Progress, runs: seq<Invocation>)
    requires Scripted(runs)
    ensures Replay(p, runs).currentDay >= p.currentDay
    ensures DeliveredDays(p, runs) == Interval(p.currentDay, Replay(p, runs).currentDay)
    ensures Replay(p, runs).sentCount - p.sentCount == Replay(p, runs).currentDay - p.currentDay
    ensures Replay(p, runs).totalDays == p.totalDays
    decreases |runs|
  {
    if runs != [] {
      var s := RunSpec(p, runs[0].today, runs[0].dir, runs[0].smtp);
      ScriptedTail(runs);
      RunMovesByOne(p, runs[0].today, runs[0].dir, runs[0].smtp);
      ReplayDeliversInOrder(s.next, runs[1..]);
      var q := Replay(s.next, runs[1..]);
      assert Replay(p, runs) == q;
      assert DeliveredDays(p, runs) ==
               (if s.outcome.Delivered? then [p.currentDay] else []) + DeliveredDays(s.next, runs[1..]);
      if s.outcome.Delivered? {
        assert Interval(p.currentDay, q.currentDay) == [p.currentDay] + Interval(p.currentDay + 1, q.currentDay);
      }
    }
  }

  /** The runs after the first are scripted too. */
  lemma ScriptedTail(runs: seq<Invocation>)
    requires Scripted(runs) && runs != []
    ensures Scripted(runs[1..])
  {
    forall i | 0 <= i < |runs[1..]| ensures DefaultRetries <= |runs[1..][i].smtp| {
      assert runs[1..][i] == runs[i + 1];
    }
  }

  /** Started from a consistent record, any sequence of runs keeps it consistent,
      so no day beyond `total_days` is ever delivered. */
  lemma {:induction false} ReplayKeepsConsistent(p: Progress, runs: seq<Invocation>)
    requires Scripted(runs) && Consistent(p)
    ensures Consistent(Replay(p, runs))
    ensures forall i :: 0 <= i < |DeliveredDays(p, runs)| ==> 1 <= DeliveredDays(p, runs)[i] <= p.totalDays
    decreases |runs|
  {
    ReplayDeliversInOrder(p, runs);
    if runs != [] {
      var s := RunSpec(p, runs[0].today, runs[0].dir, runs[0].smtp);
      ScriptedTail(runs);
      RunKeepsConsistent(p, runs[0].today, runs[0].dir, runs[0].smtp);
      ReplayKeepsConsistent(s.next, runs[1..]);
      ReplayDeliversInOrder(s.next, runs[1..]);
    }
  }

  /** A day whose summary of one subject no run finds (or finds empty) is never
      delivered, and no run gets past it. */
  lemma {:induction false} MissingSummaryStalls(p: Progress, runs: seq<Invocation>, day: int, subject: Subject)
    requires Scripted(runs) && p.currentDay <= day
    requires forall i :: 0 <= i < |runs| ==> !Truthy(LoadSummary(runs[i].dir, day, subject))
    ensures Replay(p, runs).currentDay <= day
    decreases |runs|
  {
    if runs != [] {
      var s := RunSpec(p, runs[0].today, runs[0].dir, runs[0].smtp);
      ScriptedTail(runs);
      forall i | 0 <= i < |runs[1..]| ensures !Truthy(LoadSummary(runs[1..][i].dir, day, subject)) {
        assert runs[1..][i] == runs[i + 1];
      }
      if s.outcome.Delivered? {
        DeliveryAdvancesByOne(p, runs[0].today, runs[0].dir, runs[0].smtp);
        assert p.currentDay != day by {
          match subject
          case Pharmacology =>
          case Anatomy =>
        }
      }
      MissingSummaryStalls(s.next, runs[1..], day, subject);
    }
  }

  /** A consistent record facing a day of the schedule whose summary no run finds
      never reaches the end of the schedule. */
  lemma GapBlocksCompletion(p: Progress, runs: seq<Invocation>, day: int, subject: Subject)
    requires Scripted(runs) && Consistent(p) && p.currentDay <= day <= p.totalDays
    requires forall i :: 0 <= i < |runs| ==> !Truthy(LoadSummary(runs[i].dir, day, subject))
    ensures Replay(p, runs).currentDay <= day
    ensures !Replay(p, runs).completed
  {
    MissingSummaryStalls(p, runs, day, subject);
    ReplayKeepsConsistent(p, runs);
    ReplayDeliversInOrder(p, runs);
  }

  // ---------------------------------------------------------------------------
  // Small helpers of the e-mail
  // ---------------------------------------------------------------------------

  /** get_day_info: the first index entry for `day`, or nothing (the empty dict). */
  function GetDayInfo(files: seq<DayEntry>, day: int): (r: Option<DayEntry>)
    ensures r.None? <==> forall i :: 0 <= i < |files| ==> files[i].day != day
    ensures r.Some? ==> exists i :: 0 <= i < |files| && files[i] == r.value && r.value.day == day
                                    && forall j :: 0 <= j < i ==> files[j].day != day
  {
    if files == [] then None
    else if files[0].day == day then
      Some(files[0])
    else
      var r := GetDayInfo(files[1..], day);
      assert forall i :: 1 <= i < |files| ==> files[i] == files[1..][i - 1];
      r
  }

  /** The footer of the e-mail for `day`: the days remaining and the next day announced. */
  function Footer(day: int, totalDays: int): (int, int) {
    (totalDays - day, if day < totalDays then day + 1 else day)
  }

  /** The footer of a delivered day agrees with the record the delivery leaves:
      "remaining" counts the days still to send, and the announced next day is
      the one the record points to, except on the last day, which announces itself. */
  lemma FooterMatchesAdvance(p: Progress, today: Date)
    requires Gate(p, today) == Due
    ensures var (remaining, next) := Footer(p.currentDay, p.totalDays);
            var q := Advance(p, today);
            && remaining == |Interval(q.currentDay, q.totalDays + 1)|
            && (!q.completed ==> next == q.currentDay)
            && (q.completed ==> next == p.currentDay && remaining <= 0)
  {
  }

  // ---------------------------------------------------------------------------
  // The sender object: the record in memory and its persisted copy
  // ---------------------------------------------------------------------------

  class DailyMailer {
    /** self.progress. */
    var progress: Progress
    /** The contents of progress.json; save_progress writes it. */
    var persisted: Progress
    /** self.index, read once and never changed. */
    const index: Index

    /** Every change to the record is saved before the next step. */
    ghost predicate Valid()
      reads this
    {
      persisted == progress
    }

    /** __init__ after the configuration check: load_progress and load_index.
        Without a progress file the default record (day 1 of 20) is written. */
    constructor (stored: Option<Progress>, index: Index)
      ensures Valid() && this.index == index
      ensures stored.None? ==> progress == DefaultProgress
      ensures stored.Some? ==> progress == stored.value
    {
      this.index := index;
      var p := if stored.Some? then stored.value else DefaultProgress;
      progress := p;
      persisted := p;
    }

    method SaveProgress(p: Progress)
      modifies this`persisted
      ensures persisted == p
    {
      persisted := p;
    }

    /** should_send_today: the four branches, in the source's order. */
    method ShouldSendToday(today: Date) returns (send: bool)
      requires Valid()
      modifies this
      ensures Valid()
      ensures send <==> Gate(old(progress), today) == Due
      ensures old(progress).completed ==> progress == old(progress)
      ensures !old(progress).completed && old(progress).lastSentDate == Some(today) ==>
                progress == old(progress)
      ensures Gate(old(progress), today) == JustFinished ==> progress == old(progress).(completed := true)
      ensures send ==> progress == old(progress)
    {
      if progress.completed {
        return false;
      }
      if progress.lastSentDate == Some(today) {
        return false;
      }
      if progress.currentDay > progress.totalDays {
        progress := progress.(completed := true);
        SaveProgress(progress);
        return false;
      }
      return true;
    }

    /** update_progress. */
    method UpdateProgress(today: Date)
      requires Valid()
      modifies this
      ensures Valid()
      ensures progress.currentDay == old(progress).currentDay + 1
      ensures progress.sentCount == old(progress).sentCount + 1
      ensures progress.lastSentDate == Some(today)
      ensures progress.totalDays == old(progress).totalDays
      ensures progress.completed == (old(progress).completed || progress.currentDay > progress.totalDays)
      ensures progress == Advance(old(progress), today)
    {
      progress := progress.(currentDay := progress.currentDay + 1);
      progress := progress.(lastSentDate := Some(today));
      progress := progress.(sentCount := progress.sentCount + 1);
      if progress.currentDay > progress.totalDays {
        progress := progress.(completed := true);
      }
      SaveProgress(progress);
    }

    /** run: gate, load both summaries, render, send, and advance only after a
        confirmed delivery. */
    method Run(today: Date, dir: map<string, string>, smtp: seq<bool>) returns (outcome: RunOutcome, waits: seq<nat>)
      requires Valid() && DefaultRetries <= |smtp|
      modifies this
      ensures Valid()
      ensures Step(outcome, progress, waits) == RunSpec(old(progress), today, dir, smtp)
    {
      waits := [];
      var before := progress;
      var send := ShouldSendToday(today);
      if !send {
        outcome := SkipOutcome(Gate(before, today));
        return;
      }
      var day := progress.currentDay;
      var pharma := LoadSummary(dir, day, Pharmacology);
      var anatomy := LoadSummary(dir, day, Anatomy);
      if !Truthy(pharma) || !Truthy(anatomy) {
        outcome := SummaryMissing(day);
        return;
      }
      if progress.totalDays == 0 {
        // create_html_email computes day / total_days and raises
        outcome := RenderFailed(day);
        return;
      }
      var sent;
      sent, waits := SendEmail(DefaultRetries, smtp);
      if sent {
        UpdateProgress(today);
        outcome := Delivered(day);
      } else {
        outcome := DeliveryFailed(day);
      }
    }
  }

  // ---------------------------------------------------------------------------
  // Verified examples
  // ---------------------------------------------------------------------------

  /** A first run on 2024-06-01 whose first attempt is accepted. */
  method FirstDayIsDelivered(index: Index, dir: map<string, string>)
    requires Truthy(LoadSummary(dir, 1, Pharmacology)) && Truthy(LoadSummary(dir, 1, Anatomy))
  {
    var m := new DailyMailer(Some(Progress(1, None, 3, false, 0)), index);
    var outcome, waits := m.Run("2024-06-01", dir, [true, false, false]);
    assert outcome == Delivered(1) && waits == [];
    assert m.progress == Progress(2, Some("2024-06-01"), 3, false, 1);
    assert m.persisted == m.progress;
    outcome, waits := m.Run("2024-06-01", dir, [true, true, true]);
    assert outcome == AlreadySentToday && m.progress == Progress(2, Some("2024-06-01"), 3, false, 1);
  }

  /** The same run when all three attempts fail: nothing changes. */
  method FailedDeliveryChangesNothing(index: Index, dir: map<string, string>)
    requires Truthy(LoadSummary(dir, 1, Pharmacology)) && Truthy(LoadSummary(dir, 1, Anatomy))
  {
    var p := Progress(1, None, 3, false, 0);
    var m := new DailyMailer(Some(p), index);
    var outcome, waits := m.Run("2024-06-01", dir, [false, false, false]);
    ThreeFailuresWaitOneThenTwo([false, false, false]);
    assert outcome == DeliveryFailed(1) && waits == [1, 2];
    assert m.progress == p && m.persisted == p;
  }

  /** Day 3 of 3 is still due: the gate finishes only once the cursor is past the end. */
  method LastDayIsStillSent(index: Index, dir: map<string, string>)
    requires Truthy(LoadSummary(dir, 3, Pharmacology)) && Truthy(LoadSummary(dir, 3, Anatomy))
  {
    var m := new DailyMailer(Some(Progress(3, Some("2024-06-02"), 3, false, 2)), index);
    var outcome, w := m.Run("2024-06-03", dir, [true, true, true]);
    assert outcome == Delivered(3);
    assert m.progress == Progress(4, Some("2024-06-03"), 3, true, 3);
    outcome, w := m.Run("2024-06-04", dir, [true, true, true]);
    assert outcome == AlreadyCompleted;
  }

  /** A record one past the end that is not yet completed is marked and saved. */
  method PastTheEndIsMarked(index: Index, dir: map<string, string>)
  {
    var m := new DailyMailer(Some(Progress(4, Some("2024-06-03"), 3, false, 3)), index);
    var outcome, w := m.Run("2024-06-04", dir, [true, true, true]);
    assert outcome == MarkedCompleted;
    assert m.persisted == Progress(4, Some("2024-06-03"), 3, true, 3);
  }

  /** Without a progress file the default record is written and day 1 of 20 is due. */
  method MissingProgressFile(index: Index)
  {
    var m := new DailyMailer(None, index);
    assert m.persisted == Progress(1, None, 20, false, 0);
    var send := m.ShouldSendToday("2024-06-01");
    assert send;
  }
}

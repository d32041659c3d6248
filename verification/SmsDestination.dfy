/** Destination safety: what a reservation guarantees of the job it picks, and what a
    changed setting does to jobs queued for another destination. */
module SmsDestination {
  import opened Wrappers
  import opened SmsText
  import opened SmsInbox
  import opened SmsStore
  import opened SmsProtocol
  import opened SmsJobs
  import opened SmsForwarding

  /** A reserved job is bound for the destination now set, unexpired, the first of all
      that remain queued, does not go back to its sender or to the vehicle's own
      number, and no message quoting it would be forwarded again. */
  lemma ReservationIsSafe(ss: seq<Sys>, steps: seq<Step>, dialable: string -> bool, i: nat, again: Message, elsewhere: string)
    requires IsHistory(ss, steps, dialable) && i < |steps| && steps[i].Reserve? && ss[i + 1].flight.Some?
    ensures var f, s, s' := ss[i + 1].flight.value.job, ss[i], ss[i + 1];
            && f.id in s.db.jobs && f.to == s.db.jobs[f.id].destination == s.setting
            && s.db.jobs[f.id].expiresAt > steps[i].when
            && s.db.jobs[f.id].sender != f.to
            && (steps[i].own != "" ==> s.db.jobs[f.id].sender != steps[i].own && f.to != steps[i].own)
            && f.id in s'.db.jobs && s'.db.jobs[f.id].state == Sending
            && (forall k :: k in s'.db.jobs && s'.db.jobs[k].state == Queued ==> Before(s'.db.jobs, f.id, k))
            && Spent(s'.db.budget, DayOf(steps[i].when)) == Spent(s.db.budget, DayOf(steps[i].when)) + f.segments
            && (Contains(again.text, f.text) ==> ForwardText(again, elsewhere, dialable).None?)
  {
    hide ValidDestination, ForwardText, Contains;
    var f, s, s' := ss[i + 1].flight.value.job, ss[i], ss[i + 1];
    assert Next(ss[i], steps[i], ss[i + 1], dialable);
    ReachableIsSound(ss, steps, dialable, i);
    ReservedIsQueued(s.db, steps[i].when, s.setting, steps[i].own, dialable, s'.db, f);
    assert WellAdmitted(s.db.jobs[f.id]);
    QuotedIsNotForwarded(again, f.text, elsewhere, dialable);
    QueueOrder(s.db, steps[i].when, s.setting, steps[i].own, dialable, s'.db, f);
  }

  lemma QuotedIsNotForwarded(again: Message, body: string, elsewhere: string, dialable: string -> bool)
    requires Contains(body, MARKER)
    ensures Contains(again.text, body) ==> ForwardText(again, elsewhere, dialable).None?
  {
    if Contains(again.text, body) {
      ContainsIsTransitive(again.text, body, MARKER);
    }
  }

  lemma QueueOrder(db: Db, now: int, destination: string, own: string, dialable: string -> bool, db': Db, f: ForwardJob)
    requires Reserved(db, now, destination, own, dialable, db', Some(f))
    ensures f.id in db'.jobs && db'.jobs[f.id].state == Sending
    ensures forall k :: k in db'.jobs && db'.jobs[k].state == Queued ==> Before(db'.jobs, f.id, k)
  {
    hide Usable, Swept;
  }

  /** A new setting cancels the jobs queued for another destination exactly when its write
      succeeds; when it fails they stay queued, and forwarding is off. */
  lemma SettingCancelsIffWritten(s: Sys, value: string, now: int, fails: bool, s': Sys, dialable: string -> bool, id: Id)
    requires Next(s, Setting(value, now, fails), s', dialable)
    requires id in s.db.jobs && s.db.jobs[id].state == Queued && s.db.jobs[id].destination != Target(value, dialable)
    ensures id in s'.db.jobs && SameJob(s'.db.jobs[id], s.db.jobs[id])
    ensures s'.db.jobs[id].state == if fails then Queued else Cancelled
    ensures fails ==> s'.setting == OFF && s'.db == s.db
  {
    hide ValidDestination;
  }

  /** Once a change of setting has been written, a job queued for the old destination is
      never reserved or sent, whatever the setting becomes later. */
  lemma ChangedDestinationIsFinal(ss: seq<Sys>, steps: seq<Step>, dialable: string -> bool, i: nat, j: nat, id: Id)
    requires IsHistory(ss, steps, dialable) && i < j < |ss| && steps[i].Setting? && !steps[i].fails
    requires id in ss[i].db.jobs && ss[i].db.jobs[id].state == Queued
    requires ss[i].db.jobs[id].destination != Target(steps[i].value, dialable)
    ensures !Charged(ss[j].history.charges, id) && !HandedOver(ss[j].history.sends, id)
  {
    hide Target, Charged, HandedOver, WellAdmitted;
    assert Next(ss[i], steps[i], ss[i + 1], dialable);
    ReachableIsSound(ss, steps, dialable, i);
    NotSentUnlessCharged(ss[i], id);
    NoRefund(ss, steps, dialable, i, i + 1);
    assert ss[i + 1].history.charges == ss[i].history.charges && ss[i + 1].history.sends == ss[i].history.sends;
    NeverStartedAgain(ss, steps, dialable, i + 1, j, id);
  }

  lemma NotSentUnlessCharged(s: Sys, id: Id)
    requires QueueSound(s) && SendsSound(s) && id in s.db.jobs && s.db.jobs[id].state == Queued
    ensures !Charged(s.history.charges, id) && !HandedOver(s.history.sends, id)
  {
  }

  // ----- what a failed write lets through -----

  /** At time `t`, with the vehicle's number `own`, the queued job could be sent to its
      destination if that were the setting: it has not expired, the destination can be
      reached and is neither its sender nor the vehicle, and the day's budget suffices. */
  predicate Sendable(db: Db, id: Id, t: int, own: string, dialable: string -> bool) {
    && id in db.jobs && db.jobs[id].state == Queued
    && db.jobs[id].expiresAt > t && db.jobs[id].createdAt >= t - INBOX_MAX_AGE
    && Usable(db.jobs[id].destination, own, dialable) && (own != "" ==> db.jobs[id].sender != own)
    && Spent(db.budget, DayOf(t)) + db.jobs[id].segments <= DAILY_SEGMENTS
  }

  lemma SendableIsValid(db: Db, id: Id, t: int, own: string, dialable: string -> bool)
    requires Sendable(db, id, t, own, dialable)
    ensures id in db.jobs && db.jobs[id].state == Queued && ValidDestination(db.jobs[id].destination, dialable)
  {
    hide ValidDestination;
  }

  /** Only the job and the budget matter. */
  lemma SendableDepends(db: Db, db': Db, id: Id, t: int, own: string, dialable: string -> bool)
    requires Sendable(db, id, t, own, dialable) && db'.budget == db.budget
    requires id in db.jobs && id in db'.jobs && db'.jobs[id] == db.jobs[id]
    ensures Sendable(db', id, t, own, dialable)
  {
    hide Usable;
  }

  /** Some continuation from `s`, with the clock going on from `from`, charges the job. */
  ghost predicate MayYetBeCharged(s: Sys, id: Id, from: int, dialable: string -> bool) {
    exists ss: seq<Sys>, steps: seq<Step> ::
      IsRun(ss, steps, dialable) && ss[0] == s && Clocked(steps, from) && Charged(ss[|steps|].history.charges, id)
  }

  /** What a job must have been when it waited, if it was charged later. */
  lemma {:induction false} ChargedLaterWasSendable(ss: seq<Sys>, steps: seq<Step>, dialable: string -> bool, i: nat, j: nat, id: Id)
      returns (t: int, own: string)
    requires IsHistory(ss, steps, dialable) && i <= j < |ss|
    requires id in ss[i].db.jobs && ss[i].db.jobs[id].state == Queued && Charged(ss[j].history.charges, id)
    ensures Sendable(ss[i].db, id, t, own, dialable) && exists k :: i <= k < j && steps[k] == Reserve(t, own)
    decreases j
  {
    hide Next, Charged, WellAdmitted, Usable, Sound, BudgetSound, SendsSound, InboxSound;
    ReachableIsSound(ss, steps, dialable, i);
    QueuedIsNotCharged(ss[i], id);
    assert Next(ss[j - 1], steps[j - 1], ss[j], dialable);
    if Charged(ss[j - 1].history.charges, id) {
      t, own := ChargedLaterWasSendable(ss, steps, dialable, i, j - 1, id);
    } else {
      JobsOnlyMoveForward(ss, steps, dialable, i, j - 1, id);
      NoRefund(ss, steps, dialable, i, j - 1);
      t, own := ChargingStep(ss[j - 1], steps[j - 1], ss[j], dialable, id);
    }
  }

  lemma QueuedIsNotCharged(s: Sys, id: Id)
    requires Sound(s) && id in s.db.jobs && s.db.jobs[id].state == Queued
    ensures !Charged(s.history.charges, id) && id in s.history.used
  {
  }

  lemma ChargingStep(s: Sys, step: Step, s': Sys, dialable: string -> bool, id: Id) returns (t: int, own: string)
    requires Next(s, step, s', dialable) && Charged(s'.history.charges, id) && !Charged(s.history.charges, id)
    ensures Sendable(s.db, id, t, own, dialable) && step == Reserve(t, own)
  {
    hide Usable, Charged;
    t, own := step.when, step.own;
    var f := s'.flight.value.job;
    ChargedGrows(s.history.charges, Charge(f.id, DayOf(t), f.segments), id);
    ReservedIsQueued(s.db, t, s.setting, own, dialable, s'.db, f);
  }

  /** Removes every job in `ids`, one message at a time. */
  lemma {:induction false} RemovingGoesThrough(s: Sys, ids: set<Id>, dialable: string -> bool) returns (ss: seq<Sys>, steps: seq<Step>)
    ensures IsRun(ss, steps, dialable) && ss[0] == s && forall i :: 0 <= i < |steps| ==> steps[i].Remove?
    ensures var s' := ss[|steps|]; s' == s.(db := s.db.(inbox := s'.db.inbox, jobs := s.db.jobs - ids))
    decreases |ids|
  {
    ss, steps := [s], [];
    NoRun(s, dialable);
    if ids == {} {
      assert s.db.jobs - ids == s.db.jobs;
    } else {
      var k :| k in ids;
      ss, steps := RemovingGoesThrough(s, ids - {k}, dialable);
      var s1 := ss[|steps|];
      var s2 := s1.(db := s1.db.(inbox := Without(s1.db.inbox, k), jobs := s1.db.jobs - {k}));
      assert s.db.jobs - (ids - {k}) - {k} == s.db.jobs - ids;
      ss, steps := RunGrows(ss, steps, Remove(k), s2, dialable);
    }
  }

  /** The job `id` as a reservation leaves it. */
  function StartedOn(j: Job, day: int): Job {
    j.(state := Sending, budgetDay := Some(day))
  }

  /** Alone in the queue, and bound for the setting, a sendable job is reserved. */
  lemma ReserveAlone(s: Sys, id: Id, t: int, own: string, dialable: string -> bool) returns (s': Sys)
    requires Sendable(s.db, id, t, own, dialable) && s.flight.None? && s.setting == s.db.jobs[id].destination
    requires forall k :: k in s.db.jobs && s.db.jobs[k].state == Queued ==> k == id
    ensures Next(s, Reserve(t, own), s', dialable) && Charged(s'.history.charges, id)
    ensures s'.flight.Some? && s'.flight.value.job.id == id && s'.flight.value.job.to == s.setting && !s'.flight.value.handed
    ensures s' == s.(db := s.db.(jobs := s'.db.jobs, budget := s'.db.budget), flight := s'.flight,
                     history := s.history.(charges := s'.history.charges))
    ensures s'.db.jobs == Swept(s.db.jobs, t, s.setting, own, true)[id := StartedOn(s.db.jobs[id], DayOf(t))]
  {
    hide Charged, ValidDestination;
    var job, day := s.db.jobs[id], DayOf(t);
    var swept := Swept(s.db.jobs, t, s.setting, own, true);
    assert IsFirst(swept, id) && swept[id] == job;
    var f := ForwardJob(id, job.destination, job.body, job.segments);
    var spent := Spent(s.db.budget, day) + job.segments;
    var db := s.db.(jobs := swept[id := StartedOn(job, day)], budget := s.db.budget[day := spent]);
    assert Reserved(s.db, t, s.setting, own, dialable, db, Some(f));
    s' := s.(db := db, flight := Some(Flight(f, false, false)),
             history := s.history.(charges := s.history.charges + [Charge(id, day, job.segments)]));
    ChargedGrows(s.history.charges, Charge(id, day, job.segments), id);
  }

  /** Setting a destination writes it, and leaves its own jobs as they are. */
  lemma SetTo(s: Sys, destination: string, t: int, dialable: string -> bool) returns (s': Sys)
    requires s.flight.None? && ValidDestination(destination, dialable)
    ensures Next(s, Setting(destination, t, false), s', dialable)
    ensures s' == s.(db := s'.db, setting := destination, activated := s'.activated)
    ensures s'.db == s.db.(jobs := CancelOthers(s.db.jobs, destination), destination := destination, activatedAt := s'.activated)
  {
    hide ValidDestination;
    var at := if s.db.destination == destination then s.db.activatedAt else t / 1000 * 1000;
    var db := s.db.(jobs := CancelOthers(s.db.jobs, destination), destination := destination, activatedAt := at);
    s' := s.(db := db, setting := destination, activated := at);
  }

  /** What a settings change lets through. Of a job queued for another destination when
      the setting changes, in any reachable state, some continuation with the clock going on
      charges it if and only if the write failed and there is a time still to come, and a
      number of the vehicle's own, at which it can be sent. */
  lemma GoesOnIffWriteFailed(ss: seq<Sys>, steps: seq<Step>, dialable: string -> bool, i: nat, id: Id)
    requires IsHistory(ss, steps, dialable) && i < |steps| && steps[i].Setting?
    requires id in ss[i].db.jobs && ss[i].db.jobs[id].state == Queued
    requires ss[i].db.jobs[id].destination != Target(steps[i].value, dialable)
    ensures MayYetBeCharged(ss[i + 1], id, steps[i].at, dialable) <==>
            steps[i].fails && exists t, own :: t >= steps[i].at && Sendable(ss[i].db, id, t, own, dialable)
  {
    hide Next, Target, Charged, Sendable;
    var from := steps[i].at;
    if MayYetBeCharged(ss[i + 1], id, from, dialable) {
      var after: seq<Sys>, went: seq<Step> :|
        IsRun(after, went, dialable) && after[0] == ss[i + 1] && Clocked(went, from) && Charged(after[|went|].history.charges, id);
      var all, both := JoinAfter(ss, steps, dialable, i, after, went);
      if !steps[i].fails {
        ChangedDestinationIsFinal(all, both, dialable, i, |both|, id);
      }
      var t, own := ChargedLaterWasSendable(all, both, dialable, i, |both|, id);
      var k :| i <= k < |both| && both[k] == Reserve(t, own);
      assert both[k] == went[k - i - 1] && TimeOf(went[k - i - 1]) == Some(t);
      assert t >= from && Sendable(ss[i].db, id, t, own, dialable);
    }
    if t, own :| steps[i].fails && t >= from && Sendable(ss[i].db, id, t, own, dialable) {
      assert Next(ss[i], steps[i], ss[i + 1], dialable);
      FailedWriteGoesOn(ss[i], steps[i], ss[i + 1], dialable, id, t, own);
    }
  }

  lemma JoinAfter(ss: seq<Sys>, steps: seq<Step>, dialable: string -> bool, i: nat, after: seq<Sys>, went: seq<Step>)
      returns (all: seq<Sys>, both: seq<Step>)
    requires IsHistory(ss, steps, dialable) && i < |steps| && IsRun(after, went, dialable) && after[0] == ss[i + 1]
    ensures IsHistory(all, both, dialable) && |both| > i && both[i] == steps[i] && all[i] == ss[i]
    ensures all[|both|] == after[|went|] && both[i + 1..] == went
  {
    hide Next;
    all, both := ss[..i + 1] + after, steps[..i + 1] + went;
    RunsCompose(ss[..i + 2], steps[..i + 1], after, went, dialable);
    assert ss[..i + 2][..i + 1] == ss[..i + 1];
  }

  lemma ClockGoesOn(steps: seq<Step>, destination: string, t: int, own: string, from: int)
    requires t >= from && forall i :: 0 <= i < |steps| ==> steps[i].Remove?
    ensures Clocked(steps + [Setting(destination, t, false)] + [Reserve(t, own)], from)
  {
  }

  lemma OnlyQueued(jobs: map<Id, Job>, destination: string, id: Id)
    requires id in jobs && jobs[id].destination == destination
    ensures var left := CancelOthers(jobs - (set k | k in jobs && k != id), destination);
            left == map[id := jobs[id]]
  {
  }

  lemma FailedWriteGoesOn(s: Sys, step: Step, s': Sys, dialable: string -> bool, id: Id, t: int, own: string)
    requires Next(s, step, s', dialable) && step.Setting? && step.fails
    requires t >= step.at && Sendable(s.db, id, t, own, dialable)
    ensures MayYetBeCharged(s', id, step.at, dialable)
  {
    assert s' == s.(setting := OFF) && s.flight.None?;
    hide Charged, Usable, Sendable, Next, Swept, Clocked;
    SendableIsValid(s.db, id, t, own, dialable);
    var job := s.db.jobs[id];
    var others := set k | k in s.db.jobs && k != id;
    var ss, steps := RemovingGoesThrough(s', others, dialable);
    var s1 := SetTo(ss[|steps|], job.destination, t, dialable);
    SendableDepends(s.db, s1.db, id, t, own, dialable);
    OnlyQueued(s.db.jobs, job.destination, id);
    var s2 := ReserveAlone(s1, id, t, own, dialable);
    ClockGoesOn(steps, job.destination, t, own, step.at);
    ss, steps := RunGrows(ss, steps, Setting(job.destination, t, false), s1, dialable);
    ss, steps := RunGrows(ss, steps, Reserve(t, own), s2, dialable);
  }

  // ----- in terms of the clock and the budget -----

  /** The job has not expired, and today's budget suffices for it or it lives past midnight. */
  predicate StillDue(db: Db, id: Id, now: int)
    requires id in db.jobs
  {
    && now < db.jobs[id].expiresAt
    && (Spent(db.budget, DayOf(now)) + db.jobs[id].segments <= DAILY_SEGMENTS || (DayOf(now) + 1) * DAY < db.jobs[id].expiresAt)
  }

  /** Nothing in the tables is later than `now`, jobs live for a day, and their
      destinations are valid. */
  ghost predicate Timely(s: Sys, now: int, dialable: string -> bool) {
    && (forall k :: k in s.db.jobs ==> TimelyJob(s.db.jobs[k], now, dialable))
    && (forall k :: 0 <= k < |s.history.charges| ==> s.history.charges[k].day <= DayOf(now))
  }

  predicate TimelyJob(j: Job, now: int, dialable: string -> bool) {
    j.createdAt <= now && j.expiresAt == j.createdAt + DAY && ValidDestination(j.destination, dialable)
  }

  lemma ReceiveTimely(s: Sys, step: Step, s': Sys, dialable: string -> bool, now: int, k: Id)
    requires Next(s, step, s', dialable) && step.Receive? && step.now <= now
    ensures k in s'.db.jobs && k !in s.db.jobs ==> TimelyJob(s'.db.jobs[k], now, dialable)
  {
    hide Retained, ValidDestination, Body, Segments, Contains, Eligible;
  }

  /** Only a reception brings a job. */
  lemma NewJobWasReceived(s: Sys, step: Step, s': Sys, dialable: string -> bool, k: Id)
    requires Next(s, step, s', dialable)
    ensures k in s'.db.jobs && k !in s.db.jobs ==> step.Receive?
  {
    hide Recorded, Purge, Usable, ValidDestination;
  }

  lemma DayGrows(a: int, b: int)
    requires a <= b
    ensures DayOf(a) <= DayOf(b)
  {
  }

  lemma StepTimely(s: Sys, step: Step, s': Sys, dialable: string -> bool, now: int)
    requires Next(s, step, s', dialable) && QueueSound(s) && Timely(s, now, dialable)
    requires TimeOf(step).Some? ==> TimeOf(step).value <= now
    ensures Timely(s', now, dialable)
  {
    hide Next, WellAdmitted, Charged, ValidDestination;
    StepEvolves(s, step, s', dialable);
    forall k | k in s'.db.jobs ensures TimelyJob(s'.db.jobs[k], now, dialable) {
      if k !in s.db.jobs {
        NewJobWasReceived(s, step, s', dialable, k);
        ReceiveTimely(s, step, s', dialable, now, k);
      } else {
        assert SameJob(s'.db.jobs[k], s.db.jobs[k]) && TimelyJob(s.db.jobs[k], now, dialable);
      }
    }
    ChargeTimely(s, step, s', dialable, now);
  }

  lemma ChargeTimely(s: Sys, step: Step, s': Sys, dialable: string -> bool, now: int)
    requires Next(s, step, s', dialable) && (TimeOf(step).Some? ==> TimeOf(step).value <= now)
    requires forall k :: 0 <= k < |s.history.charges| ==> s.history.charges[k].day <= DayOf(now)
    ensures forall k :: 0 <= k < |s'.history.charges| ==> s'.history.charges[k].day <= DayOf(now)
  {
    hide Recorded, Reserved, Configured, Aged, Removed, Finished, Recovered, Target, DayOf;
    if step.Reserve? {
      DayGrows(step.when, now);
    }
  }

  lemma {:induction false} TimelyAlong(ss: seq<Sys>, steps: seq<Step>, dialable: string -> bool, n: nat, now: int)
    requires IsHistory(ss, steps, dialable) && n < |ss|
    requires forall k :: 0 <= k < n && TimeOf(steps[k]).Some? ==> TimeOf(steps[k]).value <= now
    ensures Timely(ss[n], now, dialable)
    decreases n
  {
    hide Next, Sound, Timely;
    if n == 0 {
      FirstIsTimely(ss[0], now, dialable);
    } else {
      TimelyAlong(ss, steps, dialable, n - 1, now);
      ReachableIsSound(ss, steps, dialable, n - 1);
      SoundQueue(ss[n - 1]);
      assert Next(ss[n - 1], steps[n - 1], ss[n], dialable);
      StepTimely(ss[n - 1], steps[n - 1], ss[n], dialable, now);
    }
  }

  lemma FirstIsTimely(s: Sys, now: int, dialable: string -> bool)
    requires Init(s)
    ensures Timely(s, now, dialable)
  {
  }

  lemma SoundQueue(s: Sys)
    requires Sound(s)
    ensures QueueSound(s) && BudgetSound(s)
  {
  }

  lemma {:induction false} NothingSpentAhead(charges: seq<Charge>, day: int)
    requires forall k :: 0 <= k < |charges| ==> charges[k].day < day
    ensures Total(charges, day) == 0
  {
    if charges != [] {
      NothingSpentAhead(charges[..|charges| - 1], day);
    }
  }

  /** When a queued job can still be sent: exactly while it is due. */
  lemma SendableLaterIffDue(s: Sys, id: Id, now: int, dialable: string -> bool)
    requires QueueSound(s) && BudgetSound(s) && Timely(s, now, dialable) && id in s.db.jobs && s.db.jobs[id].state == Queued
    ensures (exists t, own :: t >= now && Sendable(s.db, id, t, own, dialable)) <==> StillDue(s.db, id, now)
  {
    hide ValidDestination, Charged, Contains;
    var job, today := s.db.jobs[id], DayOf(now);
    assert WellAdmitted(job) && TimelyJob(job, now, dialable);
    if t, own :| t >= now && Sendable(s.db, id, t, own, dialable) {
      DayGrows(now, t);
      assert DayOf(t) == today || (today + 1) * DAY <= t;
    }
    if StillDue(s.db, id, now) {
      if Spent(s.db.budget, today) + job.segments <= DAILY_SEGMENTS {
        assert Sendable(s.db, id, now, "", dialable);
      } else {
        var midnight := (today + 1) * DAY;
        NothingSpentAhead(s.history.charges, today + 1);
        assert DayOf(midnight) == today + 1 && Spent(s.db.budget, today + 1) == 0;
        assert midnight >= now && Sendable(s.db, id, midnight, "", dialable);
      }
    }
  }

  /** The exact extent of what a settings change lets through, as one can read it off the
      tables when it happens: with a clock that never runs backwards, a job queued for another
      destination is charged in some continuation if and only if the write failed, the job
      has not expired, and today's budget suffices for it or it lives past midnight. */
  lemma GoesOnIffStillDue(ss: seq<Sys>, steps: seq<Step>, dialable: string -> bool, i: nat, id: Id)
    requires IsHistory(ss, steps, dialable) && i < |steps| && steps[i].Setting?
    requires forall k :: 0 <= k < i && TimeOf(steps[k]).Some? ==> TimeOf(steps[k]).value <= steps[i].at
    requires id in ss[i].db.jobs && ss[i].db.jobs[id].state == Queued
    requires ss[i].db.jobs[id].destination != Target(steps[i].value, dialable)
    ensures MayYetBeCharged(ss[i + 1], id, steps[i].at, dialable) <==> steps[i].fails && StillDue(ss[i].db, id, steps[i].at)
  {
    hide Next, Sound, Timely, MayYetBeCharged, Sendable, QueueSound, BudgetSound, Target, StillDue;
    GoesOnIffWriteFailed(ss, steps, dialable, i, id);
    TimelyAlong(ss, steps, dialable, i, steps[i].at);
    ReachableIsSound(ss, steps, dialable, i);
    SoundQueue(ss[i]);
    SendableLaterIffDue(ss[i], id, steps[i].at, dialable);
  }
}

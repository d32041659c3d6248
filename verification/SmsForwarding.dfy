/** Whole-run guarantees of forwarding: the budget, at most one send per job, monotone
    job states and a safe destination. */
module SmsForwarding {
  import opened Wrappers
  import opened SmsText
  import opened SmsInbox
  import opened SmsStore
  import opened SmsProtocol
  import opened SmsJobs

  predicate Charged(charges: seq<Charge>, id: Id) {
    exists k :: 0 <= k < |charges| && charges[k].id == id
  }

  predicate HandedOver(sends: seq<Handoff>, id: Id) {
    exists k :: 0 <= k < |sends| && sends[k].id == id
  }

  /** All segments ever reserved on a day. */
  function Total(charges: seq<Charge>, day: int): nat {
    if charges == [] then 0
    else
      var c := charges[|charges| - 1];
      Total(charges[..|charges| - 1], day) + (if c.day == day then c.segments else 0)
  }

  /** Jobs were well admitted under drawn ids; exactly the charged ones have started,
      and each was charged once. */
  ghost predicate QueueSound(s: Sys) {
    && (forall i :: i in s.db.jobs ==> i in s.history.used && WellAdmitted(s.db.jobs[i]))
    && (forall i :: i in s.db.jobs ==> (Started(s.db.jobs[i].state) <==> Charged(s.history.charges, i)))
    && (forall k :: 0 <= k < |s.history.charges| ==> s.history.charges[k].id in s.history.used)
    && (forall j, k :: 0 <= j < k < |s.history.charges| ==> s.history.charges[j].id != s.history.charges[k].id)
  }

  ghost predicate BudgetSound(s: Sys) {
    forall d :: Spent(s.db.budget, d) == Total(s.history.charges, d) <= DAILY_SEGMENTS
  }

  /** What was handed over was charged, once, for the destination set at that moment;
      what is on its way is charged, for the destination still set, and is handed over once. */
  ghost predicate SendsSound(s: Sys) {
    var h := s.history;
    && (forall k :: 0 <= k < |h.sends| ==> Charged(h.charges, h.sends[k].id) && h.sends[k].to == h.sends[k].setting && h.sends[k].to != OFF)
    && (forall j, k :: 0 <= j < k < |h.sends| ==> h.sends[j].id != h.sends[k].id)
    && match s.flight
       case None => true
       case Some(f) =>
         && Charged(h.charges, f.job.id) && f.job.to == s.setting && s.setting != OFF
         && (!f.handed ==> !HandedOver(h.sends, f.job.id))
  }

  lemma ChargedGrows(charges: seq<Charge>, c: Charge, id: Id)
    ensures Charged(charges + [c], id) <==> Charged(charges, id) || c.id == id
  {
    var cs := charges + [c];
    if Charged(charges, id) {
      var k :| 0 <= k < |charges| && charges[k].id == id;
      assert cs[k].id == id;
    }
    if c.id == id {
      assert cs[|charges|].id == id;
    }
  }

  lemma SentGrows(sends: seq<Handoff>, h: Handoff, id: Id)
    ensures HandedOver(sends + [h], id) <==> HandedOver(sends, id) || h.id == id
  {
    var hs := sends + [h];
    if HandedOver(sends, id) {
      var k :| 0 <= k < |sends| && sends[k].id == id;
      assert hs[k].id == id;
    }
    if h.id == id {
      assert hs[|sends|].id == id;
    }
  }

  /** A step reserves nothing, or appends one charge for a queued job within the budget. */
  ghost predicate ChargesStep(s: Sys, s': Sys) {
    || (s'.history.charges == s.history.charges && s'.db.budget == s.db.budget)
    || exists c ::
         && s'.history.charges == s.history.charges + [c]
         && c.id in s.db.jobs && s.db.jobs[c.id].state == Queued && c.segments == s.db.jobs[c.id].segments
         && s'.history.used == s.history.used
         && Spent(s.db.budget, c.day) + c.segments <= DAILY_SEGMENTS
         && s'.db.budget == s.db.budget[c.day := Spent(s.db.budget, c.day) + c.segments]
  }

  lemma StepCharges(s: Sys, step: Step, s': Sys, dialable: string -> bool)
    requires Next(s, step, s', dialable)
    ensures ChargesStep(s, s') && s.history.used <= s'.history.used
  {
    hide Purge, Retained, ValidDestination, Pruned, Admissible, Usable, Without, Reserves;
    if step.Reserve? {
      ReserveCharges(s, step.when, step.own, s', dialable);
    }
  }

  lemma ReserveCharges(s: Sys, now: int, own: string, s': Sys, dialable: string -> bool)
    requires Reserves(s, now, own, dialable, s') && s.flight.None?
    ensures ChargesStep(s, s') && s.history.used <= s'.history.used
  {
    hide ValidDestination, Usable;
    if s'.flight.Some? {
      var c := Charge(s'.flight.value.job.id, DayOf(now), s'.flight.value.job.segments);
      assert s'.history.charges == s.history.charges + [c];
    }
  }

  lemma StepKeepsQueue(s: Sys, step: Step, s': Sys, dialable: string -> bool)
    requires Next(s, step, s', dialable) && QueueSound(s)
    ensures QueueSound(s')
  {
    hide Next, Contains;
    StepCharges(s, step, s', dialable);
    StepEvolves(s, step, s', dialable);
    if s'.history.charges != s.history.charges {
      var c :| s'.history.charges == s.history.charges + [c] && c.id in s.db.jobs && s.db.jobs[c.id].state == Queued;
      forall i ensures Charged(s'.history.charges, i) <==> Charged(s.history.charges, i) || c.id == i {
        ChargedGrows(s.history.charges, c, i);
      }
      assert NewCharge(s, s') == {c.id};
    }
  }

  lemma TotalGrows(charges: seq<Charge>, c: Charge, d: int)
    ensures Total(charges + [c], d) == Total(charges, d) + (if c.day == d then c.segments else 0)
  {
    assert (charges + [c])[..|charges|] == charges;
  }

  lemma StepKeepsBudget(s: Sys, step: Step, s': Sys, dialable: string -> bool)
    requires Next(s, step, s', dialable) && BudgetSound(s)
    ensures BudgetSound(s')
  {
    hide Next;
    StepCharges(s, step, s', dialable);
    if s'.history.charges != s.history.charges {
      var c :| s'.history.charges == s.history.charges + [c] && Spent(s.db.budget, c.day) + c.segments <= DAILY_SEGMENTS
               && s'.db.budget == s.db.budget[c.day := Spent(s.db.budget, c.day) + c.segments];
      forall d ensures Spent(s'.db.budget, d) == Total(s'.history.charges, d) <= DAILY_SEGMENTS {
        TotalGrows(s.history.charges, c, d);
      }
    }
  }

  /** What a reservation hands to the forwarding loop. */
  lemma ReservedIsQueued(db: Db, now: int, destination: string, own: string, dialable: string -> bool, db': Db, f: ForwardJob)
    requires Reserved(db, now, destination, own, dialable, db', Some(f))
    ensures f.id in db.jobs && db.jobs[f.id].state == Queued
    ensures f.to == db.jobs[f.id].destination == destination && f.text == db.jobs[f.id].body && f.segments == db.jobs[f.id].segments
    ensures db.jobs[f.id].expiresAt > now && db.jobs[f.id].createdAt >= now - INBOX_MAX_AGE
    ensures own != "" ==> db.jobs[f.id].sender != own && destination != own
  {
    hide ValidDestination;
  }

  lemma ReserveKeepsSends(s: Sys, now: int, own: string, s': Sys, dialable: string -> bool)
    requires Next(s, Reserve(now, own), s', dialable) && s'.flight.Some? && QueueSound(s) && SendsSound(s)
    ensures SendsSound(s')
  {
    hide Reserved, WellAdmitted;
    var f := s'.flight.value.job;
    var c := Charge(f.id, DayOf(now), f.segments);
    ReservedIsQueued(s.db, now, s.setting, own, dialable, s'.db, f);
    forall i ensures Charged(s'.history.charges, i) <==> Charged(s.history.charges, i) || f.id == i {
      ChargedGrows(s.history.charges, c, i);
    }
  }

  lemma HandOverKeepsSends(s: Sys, s': Sys, dialable: string -> bool)
    requires Next(s, HandOver, s', dialable) && SendsSound(s)
    ensures SendsSound(s')
  {
    var h := Handoff(s.flight.value.job.id, s.flight.value.job.to, s.setting);
    forall i ensures HandedOver(s'.history.sends, i) <==> HandedOver(s.history.sends, i) || h.id == i {
      SentGrows(s.history.sends, h, i);
    }
  }

  lemma StepKeepsSends(s: Sys, step: Step, s': Sys, dialable: string -> bool)
    requires Next(s, step, s', dialable) && QueueSound(s) && SendsSound(s)
    ensures SendsSound(s')
  {
    if step.Reserve? && s'.flight.Some? {
      ReserveKeepsSends(s, step.when, step.own, s', dialable);
    } else if step.HandOver? {
      HandOverKeepsSends(s, s', dialable);
    } else {
      hide SendsSound, QueueSound, Charged, HandedOver, Purge, Retained, ValidDestination, Recorded, Aged, Removed, Configured, Reserved;
      SendsDepend(s, s');
    }
  }

  /** Only these parts of the state matter to the sends. */
  lemma SendsDepend(s: Sys, s': Sys)
    requires SendsSound(s) && s'.history.charges == s.history.charges && s'.history.sends == s.history.sends
    requires s'.flight == None || (s'.flight == s.flight && s'.setting == s.setting)
    ensures SendsSound(s')
  {
  }

  // ----- the inbox -----

  ghost predicate InboxSound(s: Sys) {
    && Distinct(s.db.inbox) && |s.db.inbox| <= INBOX_LIMIT
    && forall r :: r in s.db.inbox ==> r.id in s.history.used
  }

  lemma RecordKeepsInbox(s: Sys, path: string, o: Object, stamp: string, now: int, newId: Id, dialable: string -> bool, s': Sys)
    requires Delivers(s, path, o, stamp, now, newId, dialable, s') && newId !in s.history.used && InboxSound(s)
    ensures InboxSound(s')
  {
    hide Retained, Newest100, Admissible, Pruned, Distinct;
    if s'.db.inbox != s.db.inbox {
      var row, cutoff := RowOf(MessageOf(path, o, stamp), newId, now), now - INBOX_MAX_AGE;
      var rows := s.db.inbox + [row];
      assert newId !in Ids(s.db.inbox);
      AppendDistinct(s.db.inbox, row);
      RetainedIsSound(rows, cutoff);
    }
  }

  lemma StepKeepsInbox(s: Sys, step: Step, s': Sys, dialable: string -> bool)
    requires Next(s, step, s', dialable) && InboxSound(s)
    ensures InboxSound(s')
  {
    hide Distinct, Pruned, Usable, Swept, Recorded, Retained;
    match step
    case Receive(path, stamp, now, newId) =>
      if s'.db != s.db {
        RecordKeepsInbox(s, path, s.modem[path], stamp, now, newId, dialable, s');
      }
    case Remove(id) => WithoutIsSound(s.db.inbox, id);
    case List(now) => PurgeIsSound(s.db.inbox, now - INBOX_MAX_AGE, {});
    case _ =>
  }

  lemma {:induction false} PurgeIsSound(rows: seq<Row>, cutoff: int, doomed: set<Id>)
    requires Distinct(rows)
    ensures var k := Purge(rows, cutoff, doomed);
            Distinct(k) && |k| <= |rows| && forall r :: r in k ==> r in rows
  {
    if rows != [] {
      var init, r := rows[..|rows| - 1], rows[|rows| - 1];
      PurgeIsSound(init, cutoff, doomed);
      forall x | x in Purge(init, cutoff, doomed) ensures x.id != r.id {
        assert x in init;
      }
    }
  }

  lemma {:induction false} WithoutIsSound(rows: seq<Row>, id: Id)
    requires Distinct(rows)
    ensures var k := Without(rows, id);
            Distinct(k) && |k| <= |rows| && forall r :: r in k <==> r in rows && r.id != id
  {
    if rows != [] {
      var init, r := rows[..|rows| - 1], rows[|rows| - 1];
      WithoutIsSound(init, id);
      assert rows == init + [r];
      forall x | x in Without(init, id) ensures x.id != r.id {
        assert x in init;
      }
    }
  }

  lemma RetainedIsSound(rows: seq<Row>, cutoff: int)
    requires Distinct(rows)
    ensures var k := Retained(rows, cutoff);
            Distinct(k) && |k| <= INBOX_LIMIT && forall r :: r in k ==> r in rows
  {
    RetainedRows(rows, |rows|, cutoff);
    RetainedBounded(rows, cutoff);
  }

  /** Every forwarding job belongs to a row of the inbox, or is being sent. */
  ghost predicate NoOrphans(db: Db) {
    forall i :: i in db.jobs ==> i in Ids(db.inbox) || db.jobs[i].state == Sending
  }

  /** A record leaves no orphaned job exactly if the copy was not known or there was no
      orphan: recognising a copy returns before the clean-up. A new row leaves at most a
      hundred of them, none too old. */
  lemma RecordRetains(db: Db, m: Message, now: int, destination: string, activatedAt: int, newId: Id, dialable: string -> bool,
                      db': Db, created: bool, id: Id)
    requires Recorded(db, m, now, destination, activatedAt, newId, dialable, db', created, id)
    requires Distinct(db.inbox) && newId !in Ids(db.inbox)
    ensures NoOrphans(db') <==> !Known(db, m) || NoOrphans(db)
    ensures !Known(db, m) ==> Distinct(db'.inbox) && |db'.inbox| <= 100
    ensures !Known(db, m) ==> forall r :: r in db'.inbox ==> r.receivedAt >= now - 30 * 24 * 60 * 60 * 1000
  {
    hide Admissible, Eligible, Retained, Distinct;
    if created {
      var rows := db.inbox + [RowOf(m, newId, now)];
      AppendDistinct(db.inbox, RowOf(m, newId, now));
      RetainedIsSound(rows, now - INBOX_MAX_AGE);
      RetainedAreYoung(rows, now - INBOX_MAX_AGE);
    }
  }

  lemma RetainedAreYoung(rows: seq<Row>, cutoff: int)
    requires Distinct(rows)
    ensures forall r :: r in Retained(rows, cutoff) ==> r.receivedAt >= cutoff
  {
    RetainedRows(rows, |rows|, cutoff);
  }

  /** A listing always cleans up, and shows the newest rows first. */
  lemma ListingRetains(db: Db, now: int, db': Db, rows: seq<Listing>)
    requires Listed(db, now, db', rows)
    ensures NoOrphans(db')
    ensures forall i, j :: 0 <= i < j < |rows| ==> rows[i].row.receivedAt >= rows[j].row.receivedAt
    ensures forall i :: 0 <= i < |rows| ==> rows[i].row in db'.inbox
  {
    NewestFirstSorts(db'.inbox);
    NewestFirstPermutes(db'.inbox);
  }

  // ----- every reachable state -----

  ghost predicate Sound(s: Sys) {
    QueueSound(s) && BudgetSound(s) && SendsSound(s) && InboxSound(s)
  }

  lemma {:induction false} ReachableIsSound(ss: seq<Sys>, steps: seq<Step>, dialable: string -> bool, i: nat)
    requires IsHistory(ss, steps, dialable) && i < |ss|
    ensures Sound(ss[i])
    decreases i
  {
    hide Next, QueueSound, BudgetSound, SendsSound, InboxSound;
    if i == 0 {
      InitIsSound(ss[0]);
    } else {
      ReachableIsSound(ss, steps, dialable, i - 1);
      assert Next(ss[i - 1], steps[i - 1], ss[i], dialable);
      StepKeepsQueue(ss[i - 1], steps[i - 1], ss[i], dialable);
      StepKeepsBudget(ss[i - 1], steps[i - 1], ss[i], dialable);
      StepKeepsSends(ss[i - 1], steps[i - 1], ss[i], dialable);
      StepKeepsInbox(ss[i - 1], steps[i - 1], ss[i], dialable);
    }
  }

  lemma InitIsSound(s: Sys)
    requires Init(s)
    ensures Sound(s)
  {
  }

  /** Budget conservation. In every reachable state, after any records, deletions,
      expiries, reconfigurations, crashes and restarts, each day's budget is the sum of
      all segments ever reserved that day, and at most ten. */
  lemma BudgetConservation(ss: seq<Sys>, steps: seq<Step>, dialable: string -> bool, i: nat)
    requires IsHistory(ss, steps, dialable) && i < |ss|
    ensures forall d :: Spent(ss[i].db.budget, d) == Total(ss[i].history.charges, d) <= 10
  {
    ReachableIsSound(ss, steps, dialable, i);
  }

  /** Nothing is ever refunded: a day's budget only grows. */
  lemma {:induction false} NoRefund(ss: seq<Sys>, steps: seq<Step>, dialable: string -> bool, i: nat, j: nat)
    requires IsRun(ss, steps, dialable) && i <= j < |ss|
    ensures forall d :: Spent(ss[i].db.budget, d) <= Spent(ss[j].db.budget, d)
    ensures ss[i].history.used <= ss[j].history.used
    decreases j
  {
    hide Next;
    if i < j {
      NoRefund(ss, steps, dialable, i, j - 1);
      assert Next(ss[j - 1], steps[j - 1], ss[j], dialable);
      StepCharges(ss[j - 1], steps[j - 1], ss[j], dialable);
    }
  }

  /** At most once. No job is handed to the modem twice, whatever crashes fall between
      reserving, sending and recording the outcome; each handed job was charged first,
      and went to the destination configured at that moment. */
  lemma AtMostOnceForwarding(ss: seq<Sys>, steps: seq<Step>, dialable: string -> bool, i: nat)
    requires IsHistory(ss, steps, dialable) && i < |ss|
    ensures var h := ss[i].history;
            && (forall j, k :: 0 <= j < k < |h.sends| ==> h.sends[j].id != h.sends[k].id)
            && (forall k :: 0 <= k < |h.sends| ==> Charged(h.charges, h.sends[k].id) && h.sends[k].to == h.sends[k].setting)
  {
    ReachableIsSound(ss, steps, dialable, i);
  }

  /** Where a job's state can get to. */
  predicate Leads(a: JobState, b: JobState) {
    a == b || a == Queued || (a == Sending && (b == Sent || b == Unknown))
  }

  /** Job states only move forward, and a job that is gone, or was never queued under a
      drawn id, never appears again. */
  lemma {:induction false} JobsOnlyMoveForward(ss: seq<Sys>, steps: seq<Step>, dialable: string -> bool, i: nat, j: nat, id: Id)
    requires IsHistory(ss, steps, dialable) && i <= j < |ss| && id in ss[i].history.used
    ensures id in ss[j].db.jobs ==>
              && id in ss[i].db.jobs && SameJob(ss[j].db.jobs[id], ss[i].db.jobs[id])
              && Leads(ss[i].db.jobs[id].state, ss[j].db.jobs[id].state)
    decreases j
  {
    hide Next;
    if i < j {
      JobsOnlyMoveForward(ss, steps, dialable, i, j - 1, id);
      ReachableIsSound(ss, steps, dialable, j - 1);
      NoRefund(ss, steps, dialable, i, j - 1);
      assert Next(ss[j - 1], steps[j - 1], ss[j], dialable);
      StepEvolves(ss[j - 1], steps[j - 1], ss[j], dialable);
    }
  }

  /** A job that is not queued any more is never reserved, nor handed over unless it is
      on its way already. */
  lemma {:induction false} NeverStartedAgain(ss: seq<Sys>, steps: seq<Step>, dialable: string -> bool, i: nat, j: nat, id: Id)
    requires IsHistory(ss, steps, dialable) && i <= j < |ss| && id in ss[i].history.used
    requires id in ss[i].db.jobs ==> ss[i].db.jobs[id].state != Queued
    requires ss[i].flight.Some? ==> ss[i].flight.value.job.id != id
    ensures Charged(ss[j].history.charges, id) ==> Charged(ss[i].history.charges, id)
    ensures HandedOver(ss[j].history.sends, id) ==> HandedOver(ss[i].history.sends, id)
    ensures ss[j].flight.Some? ==> ss[j].flight.value.job.id != id
    decreases j
  {
    hide Next, Charged, HandedOver;
    if i < j {
      assert Next(ss[j - 1], steps[j - 1], ss[j], dialable);
      NeverStartedAgain(ss, steps, dialable, i, j - 1, id);
      JobsOnlyMoveForward(ss, steps, dialable, i, j - 1, id);
      NotStartedByStep(ss[j - 1], steps[j - 1], ss[j], dialable, id);
    }
  }

  lemma NotStartedByStep(s: Sys, step: Step, s': Sys, dialable: string -> bool, id: Id)
    requires Next(s, step, s', dialable)
    requires id in s.db.jobs ==> s.db.jobs[id].state != Queued
    requires s.flight.Some? ==> s.flight.value.job.id != id
    ensures Charged(s'.history.charges, id) ==> Charged(s.history.charges, id)
    ensures HandedOver(s'.history.sends, id) ==> HandedOver(s.history.sends, id)
    ensures s'.flight.Some? ==> s'.flight.value.job.id != id
  {
    hide Purge, Retained, ValidDestination, Recorded, Aged, Removed, Configured, Reserved, Charged, HandedOver;
    if step.Reserve? && s'.flight.Some? {
      var f := s'.flight.value.job;
      ReservedIsQueued(s.db, step.when, s.setting, step.own, dialable, s'.db, f);
      ChargedGrows(s.history.charges, Charge(f.id, DayOf(step.when), f.segments), id);
    } else if step.HandOver? {
      var f := s.flight.value.job;
      SentGrows(s.history.sends, Handoff(f.id, f.to, s.setting), id);
    }
  }
}

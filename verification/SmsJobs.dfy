/** How forwarding jobs may change in one step of the pipeline. */
module SmsJobs {
  import opened Wrappers
  import opened SmsText
  import opened SmsInbox
  import opened SmsStore
  import opened SmsProtocol

  /** The moves of a job: queued to sending, expired or cancelled; sending to sent or unknown. */
  predicate Moves(a: JobState, b: JobState) {
    || a == b
    || (a == Queued && (b == Sending || b == Expired || b == Cancelled))
    || (a == Sending && (b == Sent || b == Unknown))
  }

  predicate Started(state: JobState) {
    state == Sending || state == Sent || state == Unknown
  }

  /** What admission guarantees of a job for good. */
  predicate WellAdmitted(j: Job) {
    j.sender != j.destination && j.destination != OFF && Contains(j.body, MARKER) && 1 <= j.segments <= MAX_SEGMENTS
  }

  predicate SameJob(a: Job, b: Job) {
    a == b.(state := a.state, budgetDay := a.budgetDay)
  }

  /** Every job of `jobs'` is an old one that made an allowed move, starting only if it
      is the one in `starting`, or a new, well admitted, queued one. */
  ghost predicate Evolved(jobs: map<Id, Job>, jobs': map<Id, Job>, starting: set<Id>, drawn: set<Id>) {
    forall i :: i in jobs' ==>
      if i in jobs
      then && SameJob(jobs'[i], jobs[i]) && Moves(jobs[i].state, jobs'[i].state)
           && (i in starting <==> jobs[i].state == Queued && jobs'[i].state == Sending)
      else i in drawn && jobs'[i].state == Queued && WellAdmitted(jobs'[i])
  }

  /** The job reserved by a step, if it reserved one. */
  function NewCharge(s: Sys, s': Sys): set<Id> {
    if |s'.history.charges| > |s.history.charges| then {s'.history.charges[|s.history.charges|].id} else {}
  }

  lemma RecordEvolves(s: Sys, path: string, o: Object, stamp: string, now: int, newId: Id, dialable: string -> bool, s': Sys)
    requires Delivers(s, path, o, stamp, now, newId, dialable, s')
    ensures newId !in s.db.jobs ==> Evolved(s.db.jobs, s'.db.jobs, {}, {newId})
  {
    hide Body, Segments, ValidDestination, Retained, Contains;
    var m := MessageOf(path, o, stamp);
    BodyIsMarked(m);
    SegmentsAreFewest(Body(m));
  }

  lemma ReserveEvolves(db: Db, now: int, destination: string, own: string, dialable: string -> bool, db': Db, r: Option<ForwardJob>)
    requires Reserved(db, now, destination, own, dialable, db', r)
    ensures Evolved(db.jobs, db'.jobs, if r.Some? then {r.value.id} else {}, {})
  {
    hide Usable;
  }

  lemma PruneEvolves(db: Db, now: int, db': Db)
    requires Aged(db, now, db')
    ensures Evolved(db.jobs, db'.jobs, {}, {})
  {
    hide Purge;
  }

  lemma ConfigureEvolves(db: Db, destination: string, now: int, db': Db)
    requires Configured(db, destination, now, db')
    ensures Evolved(db.jobs, db'.jobs, {}, {})
  {
  }

  lemma FinishEvolves(jobs: map<Id, Job>, id: Id, sent: bool)
    ensures Evolved(jobs, Finished(jobs, id, sent), {}, {}) && Evolved(jobs, Recovered(jobs), {}, {})
    ensures Evolved(jobs, jobs - {id}, {}, {}) && Evolved(jobs, jobs, {}, {})
  {
  }

  lemma ReceiveEvolves(s: Sys, path: string, stamp: string, now: int, newId: Id, dialable: string -> bool, s': Sys)
    requires Receives(s, path, stamp, now, newId, dialable, s') && newId !in s.history.used && newId !in s.db.jobs
    ensures s'.history.charges == s.history.charges
    ensures Evolved(s.db.jobs, s'.db.jobs, {}, s'.history.used - s.history.used)
  {
    hide Recorded;
    if s'.history.used == s.history.used {
      assert s'.db == s.db;
      assert s'.history.used - s.history.used == {};
    } else {
      RecordEvolves(s, path, s.modem[path], stamp, now, newId, dialable, s');
      assert s'.history.used - s.history.used == {newId};
    }
  }

  /** Every step moves jobs only as allowed, and starts only the job it charges. */
  lemma StepEvolves(s: Sys, step: Step, s': Sys, dialable: string -> bool)
    requires Next(s, step, s', dialable)
    requires forall i :: i in s.db.jobs ==> i in s.history.used
    ensures s.history.charges <= s'.history.charges
    ensures Evolved(s.db.jobs, s'.db.jobs, NewCharge(s, s'), s'.history.used - s.history.used)
  {
    hide Receives, Aged, Configured, Reserved, Finished, Recovered, Evolved, ValidDestination;
    assert s.history.used - s.history.used == {};
    FinishEvolves(s.db.jobs, if step.Remove? then step.id else if s.flight.Some? then s.flight.value.job.id else 0,
                  s.flight.Some? && s.flight.value.handed && s.flight.value.sent);
    match step
    case Receive(path, stamp, now, newId) =>
      ReceiveEvolves(s, path, stamp, now, newId, dialable, s');
    case Reserve(now, own) =>
      if s' != s {
        var r := if s'.flight.Some? then Some(s'.flight.value.job) else None;
        ReserveEvolves(s.db, now, s.setting, own, dialable, s'.db, r);
        assert NewCharge(s, s') == if r.Some? then {r.value.id} else {};
        assert s'.history.used - s.history.used == {};
      }
    case Setting(value, now, fails) =>
      if !fails {
        ConfigureEvolves(s.db, Target(value, dialable), now, s'.db);
      }
    case List(now) =>
      if s' != s {
        PruneEvolves(s.db, now, s'.db);
      }
    case _ =>
  }
}

/** Where the contents of the store come from, over whole runs: every row, every known copy,
    every job and everything handed over goes back to an inbound text that was received. */
module SmsOrigins {
  import opened Wrappers
  import opened SmsText
  import opened SmsInbox
  import opened SmsStore
  import opened SmsProtocol
  import opened SmsJobs
  import opened SmsForwarding
  import opened SmsDestination
  import opened SmsExactlyOnce
  import opened SmsRecords

  /** A text that somebody sent to the vehicle, and that is there as a whole: not one of the
      vehicle's own messages, no report on one, nothing binary. */
  predicate Textual(o: Object) {
    o.state !in {Receiving, SendingOut, SentOut} && o.pdu !in {StatusReport, Submit} && !o.binary
  }

  function AsRead(path: string, o: Object, stamp: string): Message {
    Message(o.number, o.text, stamp, path, o.time, o.sourceTime)
  }

  /** The step `i` of a run received the text `o` and recorded it as new, under the id `id`. */
  ghost predicate Records(ss: seq<Sys>, steps: seq<Step>, i: nat, o: Object, id: Id) {
    && i < |steps| && i + 1 < |ss| && steps[i].Receive? && steps[i].newId == id
    && steps[i].path in ss[i].modem && ss[i].modem[steps[i].path] == o && Textual(o)
    && ss[i + 1].history.created ==
       ss[i].history.created + [Creation(steps[i].path, Identity(o.number, o.text, o.time), id)]
  }

  lemma TextualIs(o: Object)
    ensures Textual(o) <==> InboundText(o)
  {
  }

  /** What one reception does, if it does anything to the tables. */
  lemma ReceiveStores(s: Sys, step: Step, s': Sys, dialable: string -> bool)
    requires Next(s, step, s', dialable) && step.Receive? && InboxSound(s) && QueueSound(s)
    ensures s'.db != s.db || s'.history.created != s.history.created ==>
              && step.path in s.modem && Textual(s.modem[step.path])
              && var o := s.modem[step.path];
                 var m := AsRead(step.path, o, step.stamp);
                 && !Recognised(s.db, m)
                 && s'.history.created == s.history.created + [Creation(step.path, Identity(o.number, o.text, o.time), step.newId)]
                 && StoredAs(s.db, m, step.now, s.setting, s.activated, step.newId, dialable, s'.db)
                 && OthersKept(s.db, m, step.now, step.newId, s'.db)
  {
    if s'.db != s.db || s'.history.created != s.history.created {
      hide Recorded, StoredAs, OthersKept, WellAdmitted, Charged;
      var o := s.modem[step.path];
      TextualIs(o);
      DeliveryRecords(s, step.path, o, step.stamp, step.now, step.newId, dialable, s');
    }
  }

  lemma DeliveryRecords(s: Sys, path: string, o: Object, stamp: string, now: int, newId: Id, dialable: string -> bool, s': Sys)
    requires Delivers(s, path, o, stamp, now, newId, dialable, s') && newId !in s.history.used && InboxSound(s) && QueueSound(s)
    ensures s'.db != s.db || s'.history.created != s.history.created ==>
              && var m := AsRead(path, o, stamp);
                 && !Recognised(s.db, m)
                 && s'.history.created == s.history.created + [Creation(path, Identity(o.number, o.text, o.time), newId)]
                 && StoredAs(s.db, m, now, s.setting, s.activated, newId, dialable, s'.db)
                 && OthersKept(s.db, m, now, newId, s'.db)
  {
    hide Recorded, StoredAs, OthersKept, WellAdmitted, Charged, Distinct;
    assert newId !in Ids(s.db.inbox) && newId !in s.db.jobs;
    var created, id :| Recorded(s.db, MessageOf(path, o, stamp), now, s.setting, s.activated, newId, dialable, s'.db, created, id)
      && s' == s.(db := s'.db, work := Deleting(path, Named(o), false),
                  history := s.history.(used := s.history.used + {newId},
                                        created := if created then s.history.created + [Creation(path, Named(o), id)] else s.history.created));
    RecordStores(s.db, MessageOf(path, o, stamp), now, s.setting, s.activated, newId, dialable, s'.db, created, id);
  }

  /** No other step adds a row or a copy, or remembers a creation. */
  lemma OthersAddNothing(s: Sys, step: Step, s': Sys, dialable: string -> bool)
    requires Next(s, step, s', dialable) && InboxSound(s) && !step.Receive?
    ensures forall r :: r in s'.db.inbox ==> r in s.db.inbox
    ensures forall p :: p in s'.db.copies ==> p in s.db.copies && s'.db.copies[p] == s.db.copies[p]
    ensures s'.history.created == s.history.created
  {
    hide Distinct, Pruned, Usable, Swept, Finished, Recovered, ValidDestination, Purge, Without;
    match step
    case Remove(id) => WithoutIsSound(s.db.inbox, id);
    case List(now) => PurgeIsSound(s.db.inbox, now - INBOX_MAX_AGE, {});
    case _ =>
  }

  lemma RunStep(ss: seq<Sys>, steps: seq<Step>, dialable: string -> bool, n: nat)
    requires IsHistory(ss, steps, dialable) && n < |steps|
    ensures Next(ss[n], steps[n], ss[n + 1], dialable) && InboxSound(ss[n]) && QueueSound(ss[n])
  {
    hide Next, QueueSound, InboxSound, BudgetSound, SendsSound;
    ReachableIsSound(ss, steps, dialable, n);
  }

  /** Every creation remembered goes back to the step that recorded it. */
  lemma {:induction false} CreationsWereReceived(ss: seq<Sys>, steps: seq<Step>, dialable: string -> bool, n: nat, c: Creation)
    requires IsHistory(ss, steps, dialable) && n < |ss| && c in ss[n].history.created
    ensures exists i: nat, o :: i < n && Records(ss, steps, i, o, c.id) && c == Creation(steps[i].path, Identity(o.number, o.text, o.time), c.id)
    decreases n
  {
    hide Next, QueueSound, InboxSound, StoredAs, OthersKept, Textual, Recognised;
    if n > 0 {
      var s, s' := ss[n - 1], ss[n];
      RunStep(ss, steps, dialable, n - 1);
      if c in s.history.created {
        CreationsWereReceived(ss, steps, dialable, n - 1, c);
      } else {
        if steps[n - 1].Receive? {
          ReceiveStores(s, steps[n - 1], s', dialable);
        } else {
          OthersAddNothing(s, steps[n - 1], s', dialable);
        }
        assert Records(ss, steps, n - 1, s.modem[steps[n - 1].path], c.id);
      }
    }
  }

  /** A row holds what was received: sender, text, timestamp and time of receipt. */
  predicate Holds(r: Row, o: Object, step: Step) {
    step.Receive? && r == Row(step.newId, o.number, o.text, step.stamp, step.now, false)
  }

  /** Every row of the inbox goes back to the text that was received, and holds it. */
  lemma {:induction false} RowsWereReceived(ss: seq<Sys>, steps: seq<Step>, dialable: string -> bool, n: nat, r: Row)
    requires IsHistory(ss, steps, dialable) && n < |ss| && r in ss[n].db.inbox
    ensures exists i: nat, o :: i < n && Records(ss, steps, i, o, r.id) && Holds(r, o, steps[i])
    decreases n
  {
    hide Next, QueueSound, InboxSound, OthersKept, Textual, Recognised;
    if n > 0 {
      var s, s' := ss[n - 1], ss[n];
      RunStep(ss, steps, dialable, n - 1);
      if r in s.db.inbox {
        RowsWereReceived(ss, steps, dialable, n - 1, r);
      } else {
        RowIsNew(s, steps[n - 1], s', dialable, r);
        assert Records(ss, steps, n - 1, s.modem[steps[n - 1].path], r.id);
      }
    }
  }

  lemma RowIsNew(s: Sys, step: Step, s': Sys, dialable: string -> bool, r: Row)
    requires Next(s, step, s', dialable) && InboxSound(s) && QueueSound(s) && r in s'.db.inbox && r !in s.db.inbox
    ensures step.Receive? && step.path in s.modem && Textual(s.modem[step.path]) && Holds(r, s.modem[step.path], step)
    ensures var o := s.modem[step.path];
            s'.history.created == s.history.created + [Creation(step.path, Identity(o.number, o.text, o.time), r.id)]
  {
    hide Next, QueueSound, InboxSound, Textual, Recognised;
    if step.Receive? {
      ReceiveStores(s, step, s', dialable);
    } else {
      OthersAddNothing(s, step, s', dialable);
    }
  }

  lemma RecordUses(ss: seq<Sys>, steps: seq<Step>, dialable: string -> bool, i: nat, o: Object, id: Id)
    requires IsHistory(ss, steps, dialable) && Records(ss, steps, i, o, id)
    ensures id !in ss[i].history.used && id in ss[i + 1].history.used
  {
    hide Recorded, Textual;
    assert Next(ss[i], steps[i], ss[i + 1], dialable);
    assert ss[i + 1].history.created != ss[i].history.created;
  }

  lemma RecordsOnce(ss: seq<Sys>, steps: seq<Step>, dialable: string -> bool, i: nat, o: Object, j: nat, p: Object, id: Id)
    requires IsHistory(ss, steps, dialable) && Records(ss, steps, i, o, id) && Records(ss, steps, j, p, id)
    ensures i == j && o == p
  {
    hide Next;
    RecordUses(ss, steps, dialable, i, o, id);
    RecordUses(ss, steps, dialable, j, p, id);
    if i < j {
      NoRefund(ss, steps, dialable, i + 1, j);
    } else if j < i {
      NoRefund(ss, steps, dialable, j + 1, i);
    }
  }

  /** The inbox holds what it recorded: in every reachable state, the row under the id of a
      remembered creation, if it is still there, has its sender and its text. */
  lemma RowHoldsItsMessage(ss: seq<Sys>, steps: seq<Step>, dialable: string -> bool, n: nat, c: Creation, r: Row)
    requires IsHistory(ss, steps, dialable) && n < |ss| && c in ss[n].history.created
    ensures r in ss[n].db.inbox && r.id == c.id ==> r.sender == c.identity.number && r.body == c.identity.text && !r.isRead
  {
    hide IsHistory, Textual;
    if r in ss[n].db.inbox && r.id == c.id {
      RowsWereReceived(ss, steps, dialable, n, r);
      CreationsWereReceived(ss, steps, dialable, n, c);
      var i: nat, o :| i < n && Records(ss, steps, i, o, r.id) && Holds(r, o, steps[i]);
      var j: nat, p :| j < n && Records(ss, steps, j, p, c.id) && c == Creation(steps[j].path, Identity(p.number, p.text, p.time), c.id);
      RecordsOnce(ss, steps, dialable, i, o, j, p, c.id);
    }
  }

  /** Every copy the durable table knows was received under its path with that identity. */
  lemma CopiesWereReceived(ss: seq<Sys>, steps: seq<Step>, dialable: string -> bool, n: nat, path: string)
    requires IsHistory(ss, steps, dialable) && n < |ss| && path in ss[n].db.copies
    ensures exists i: nat, o :: i < n && Records(ss, steps, i, o, ss[n].db.copies[path].entry) && steps[i].path == path
              && ss[n].db.copies[path].identity == Identity(o.number, o.text, o.time)
  {
    hide IsHistory, Textual;
    var copy := ss[n].db.copies[path];
    var c := Creation(path, copy.identity, copy.entry);
    ReachableCopies(ss, steps, dialable, n);
    CopyWasCreated(ss[n], path);
    CreationsWereReceived(ss, steps, dialable, n, c);
    var i: nat, o :| i < n && Records(ss, steps, i, o, c.id) && c == Creation(steps[i].path, Identity(o.number, o.text, o.time), c.id);
  }

  lemma CopyWasCreated(s: Sys, path: string)
    requires CopiesSound(s) && path in s.db.copies
    ensures Creation(path, s.db.copies[path].identity, s.db.copies[path].entry) in s.history.created
  {
    assert WasCreated(s.history.created, path, s.db.copies[path]);
  }

  // ----- jobs -----

  /** The job under `id` was made from `o`: it quotes it, it is bound for the destination set at
      that moment, to which it might be forwarded, and it lives for a day. */
  ghost predicate JobOfText(j: Job, o: Object, s: Sys, step: Step, dialable: string -> bool) {
    && step.Receive? && j.sender == o.number && Quotes(j.body, o.number, step.stamp, o.text)
    && j.segments == Segments(j.body) && j.destination == s.setting
    && j.createdAt == step.now && j.expiresAt == step.now + 86_400_000
    && Forwardable(AsRead(step.path, o, step.stamp), s.setting, s.activated, dialable)
  }

  /** Every job goes back to the text that was received, and quotes it. */
  lemma {:induction false} JobsWereReceived(ss: seq<Sys>, steps: seq<Step>, dialable: string -> bool, n: nat, id: Id)
    requires IsHistory(ss, steps, dialable) && n < |ss| && id in ss[n].db.jobs
    ensures exists i: nat, o :: i < n && Records(ss, steps, i, o, id) && JobOfText(ss[n].db.jobs[id], o, ss[i], steps[i], dialable)
    decreases n
  {
    hide Next, QueueSound, InboxSound, Textual, Recognised, JobOfText;
    if n > 0 {
      var s, s' := ss[n - 1], ss[n];
      RunStep(ss, steps, dialable, n - 1);
      if id in s.db.jobs {
        JobsWereReceived(ss, steps, dialable, n - 1, id);
        var i: nat, o :| i < n - 1 && Records(ss, steps, i, o, id) && JobOfText(s.db.jobs[id], o, ss[i], steps[i], dialable);
        JobStays(s, steps[n - 1], s', dialable, id);
        SameJobOfText(s.db.jobs[id], s'.db.jobs[id], o, ss[i], steps[i], dialable);
      } else {
        JobIsNew(s, steps[n - 1], s', dialable, id);
        assert Records(ss, steps, n - 1, s.modem[steps[n - 1].path], id);
      }
    }
  }

  lemma SameJobOfText(j: Job, j': Job, o: Object, s: Sys, step: Step, dialable: string -> bool)
    requires SameJob(j', j) && JobOfText(j, o, s, step, dialable)
    ensures JobOfText(j', o, s, step, dialable)
  {
    hide Quotes, Forwardable, Segments;
  }

  lemma JobStays(s: Sys, step: Step, s': Sys, dialable: string -> bool, id: Id)
    requires Next(s, step, s', dialable) && QueueSound(s) && id in s.db.jobs && id in s'.db.jobs
    ensures SameJob(s'.db.jobs[id], s.db.jobs[id])
  {
    hide Next, WellAdmitted, Charged;
    StepEvolves(s, step, s', dialable);
  }

  lemma JobIsNew(s: Sys, step: Step, s': Sys, dialable: string -> bool, id: Id)
    requires Next(s, step, s', dialable) && InboxSound(s) && QueueSound(s)
    ensures id in s'.db.jobs && id !in s.db.jobs ==>
              && step.Receive? && step.path in s.modem && Textual(s.modem[step.path]) && id == step.newId
              && JobOfText(s'.db.jobs[id], s.modem[step.path], s, step, dialable)
              && var o := s.modem[step.path];
                 s'.history.created == s.history.created + [Creation(step.path, Identity(o.number, o.text, o.time), id)]
  {
    if id !in s'.db.jobs || id in s.db.jobs { return; }
    hide Next, QueueSound, InboxSound, Textual, Recognised, Forwardable, Quotes, Segments;
    NewJobWasReceived(s, step, s', dialable, id);
    ReceiveStores(s, step, s', dialable);
  }

  // ----- the setting -----

  /** What a new setting makes of the destination: a valid number is taken, and anything else,
      or a failed write, turns forwarding off. */
  lemma SettingIsTaken(s: Sys, value: string, now: int, fails: bool, s': Sys, dialable: string -> bool)
    requires Next(s, Setting(value, now, fails), s', dialable)
    ensures s'.setting == if !fails && IsE164(value) && dialable(value) then value else "off"
    ensures fails ==> s'.db == s.db && s'.activated == s.activated
    ensures !fails ==> s'.db.destination == s'.setting && s'.activated == s'.db.activatedAt
    ensures !fails ==> s'.activated == if s.db.destination == s'.setting then s.db.activatedAt else now - now % 1000
  {
    E164Is(value);
    hide IsE164, E164;
  }

  /** After a restart forwarding is off, nothing is remembered but the tables, and what was being
      sent is in doubt. */
  lemma RestartForgets(s: Sys, s': Sys, dialable: string -> bool)
    requires Next(s, Restart, s', dialable)
    ensures s'.setting == "off" && s'.delivered == map[] && s'.work.Idle? && s'.flight.None? && s'.activated == 0
    ensures s'.db.inbox == s.db.inbox && s'.db.copies == s.db.copies && s'.db.budget == s.db.budget && s'.db.jobs.Keys == s.db.jobs.Keys
    ensures forall k :: k in s.db.jobs ==>
              s'.db.jobs[k] == if s.db.jobs[k].state == Sending then s.db.jobs[k].(state := Unknown) else s.db.jobs[k]
  {
    OutcomeIsRecorded(s.db.jobs, 0, false);
    hide Recovered;
  }

  // ----- what is handed over -----

  /** What is on its way was reserved by step `r`. */
  ghost predicate ReservedBy(ss: seq<Sys>, steps: seq<Step>, r: nat, f: ForwardJob) {
    r < |steps| && r + 1 < |ss| && steps[r].Reserve? && ss[r].flight.None? && ss[r + 1].flight == Some(Flight(f, false, false))
  }

  lemma {:induction false} FlightWasReserved(ss: seq<Sys>, steps: seq<Step>, dialable: string -> bool, n: nat)
    requires IsHistory(ss, steps, dialable) && n < |ss| && ss[n].flight.Some?
    ensures exists r: nat :: r < n && ReservedBy(ss, steps, r, ss[n].flight.value.job)
    decreases n
  {
    hide Next;
    if n > 0 {
      assert Next(ss[n - 1], steps[n - 1], ss[n], dialable);
      FlightStep(ss[n - 1], steps[n - 1], ss[n], dialable);
      if ss[n - 1].flight.Some? {
        FlightWasReserved(ss, steps, dialable, n - 1);
      } else {
        assert ReservedBy(ss, steps, n - 1, ss[n].flight.value.job);
      }
    }
  }

  lemma FlightStep(s: Sys, step: Step, s': Sys, dialable: string -> bool)
    requires Next(s, step, s', dialable) && s'.flight.Some?
    ensures s.flight.Some? ==> s'.flight.value.job == s.flight.value.job
    ensures s.flight.None? ==> step.Reserve? && s'.flight == Some(Flight(s'.flight.value.job, false, false))
  {
    hide Recorded, Reserved, Configured, Aged, Removed, Finished, Recovered, Target;
  }

  /** The text `o`, received by step `i`, is what `f` forwards: it went through step `r`, less
      than a day later, to the destination set at both times, which is not its sender. */
  ghost predicate Forwards(ss: seq<Sys>, steps: seq<Step>, i: nat, r: nat, o: Object, f: ForwardJob, dialable: string -> bool) {
    && i < r < |steps| && r < |ss| && Records(ss, steps, i, o, f.id) && steps[r].Reserve?
    && Quotes(f.text, o.number, steps[i].stamp, o.text) && f.segments == Segments(f.text)
    && f.to == ss[i].setting == ss[r].setting && f.to != o.number && steps[r].own != f.to
    && (steps[r].own != "" ==> steps[r].own != o.number)
    && steps[r].when < steps[i].now + 86_400_000
    && Forwardable(AsRead(steps[i].path, o, steps[i].stamp), f.to, ss[i].activated, dialable)
  }

  /** What is reserved quotes an inbound text that was received. */
  lemma ReservedWasReceived(ss: seq<Sys>, steps: seq<Step>, dialable: string -> bool, r: nat, f: ForwardJob)
    requires IsHistory(ss, steps, dialable) && ReservedBy(ss, steps, r, f)
    ensures exists i: nat, o :: Forwards(ss, steps, i, r, o, f, dialable)
  {
    hide Records, QueueSound, InboxSound, Reserved, WellAdmitted, Charged, Forwardable, Quotes, Segments;
    RunStep(ss, steps, dialable, r);
    ReservedIsQueued(ss[r].db, steps[r].when, ss[r].setting, steps[r].own, dialable, ss[r + 1].db, f);
    ReservePicks(ss[r].db, steps[r].when, ss[r].setting, steps[r].own, dialable, ss[r + 1].db, f);
    hide Next;
    JobsWereReceived(ss, steps, dialable, r, f.id);
    var i: nat, o :| i < r && Records(ss, steps, i, o, f.id) && JobOfText(ss[r].db.jobs[f.id], o, ss[i], steps[i], dialable);
    ForwardableNotBack(AsRead(steps[i].path, o, steps[i].stamp), ss[i].setting, ss[i].activated, dialable);
    assert Forwards(ss, steps, i, r, o, f, dialable);
  }

  lemma ForwardableNotBack(m: Message, destination: string, activatedAt: int, dialable: string -> bool)
    requires Forwardable(m, destination, activatedAt, dialable)
    ensures m.number != destination
  {
  }

  /** Whatever is handed to the modem is a text that was received, quoted with the marker and
      its sender, less than a day after it came; it goes to a valid number that was the
      setting when it came and when it was reserved, and that is not where it came from. */
  lemma HandedOverWasReceived(ss: seq<Sys>, steps: seq<Step>, dialable: string -> bool, n: nat)
    requires IsHistory(ss, steps, dialable) && n < |steps| && steps[n].HandOver?
    ensures ss[n].flight.Some?
    ensures exists i: nat, r: nat, o :: r < n && ReservedBy(ss, steps, r, ss[n].flight.value.job) && Forwards(ss, steps, i, r, o, ss[n].flight.value.job, dialable)
    ensures ss[n + 1].history.sends ==
            ss[n].history.sends + [Handoff(ss[n].flight.value.job.id, ss[n].flight.value.job.to, ss[n].setting)]
  {
    hide Forwards, ReservedBy;
    assert Next(ss[n], steps[n], ss[n + 1], dialable);
    hide Next;
    FlightWasReserved(ss, steps, dialable, n);
    var r: nat :| r < n && ReservedBy(ss, steps, r, ss[n].flight.value.job);
    ReservedWasReceived(ss, steps, dialable, r, ss[n].flight.value.job);
  }
}

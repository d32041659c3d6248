/** Runs of the pipeline from an empty database: a job that goes out although the destination
    was changed in between, a job that outlives its row through a record, and two texts that
    are deleted without one. */
module SmsWitness {
  import opened Wrappers
  import opened SmsText
  import opened SmsInbox
  import opened SmsStore
  import opened SmsProtocol
  import opened SmsForwarding
  import opened SmsDestination

  /** One message for `to`, received at `now` after forwarding was set at `start`: recorded,
      its job queued, its modem copy still there. */
  function Waiting(path: string, o: Object, stamp: string, to: string, start: int, now: int, id: Id): Sys {
    var m, at := MessageOf(path, o, stamp), start / 1000 * 1000;
    Sys(Db([RowOf(m, id, now)], map[path := Copy(Named(o), id)], map[id := JobOf(m, to, now)], map[], to, at),
        map[path := o], map[path := Named(o)], Idle, to, at, None,
        History([Creation(path, Named(o), id)], [], [], [Deletion(path, Named(o))], {id}))
  }

  /** The message is fit to be forwarded, and no older than the setting. */
  predicate Fit(path: string, o: Object, stamp: string, to: string, start: int, dialable: string -> bool) {
    && path != "" && InboundText(o) && Named(o) != NO_IDENTITY
    && Admissible(MessageOf(path, o, stamp), to, dialable)
    && o.sourceTime.Some? && o.sourceTime.value >= start / 1000 * 1000
  }

  /** A clock that shows `start` first, then `now` until the fifth step, and `late` after it. */
  lemma ThreeTimes(steps: seq<Step>, start: int, now: int, late: int)
    requires start <= now <= late && |steps| > 5 && TimeOf(steps[0]) == Some(start)
    requires forall i :: 0 < i < 5 ==> TimeOf(steps[i]) == None || TimeOf(steps[i]) == Some(now)
    requires forall i :: 5 <= i < |steps| ==> TimeOf(steps[i]) == None || TimeOf(steps[i]) == Some(late)
    ensures Clocked(steps, start)
  {
  }

  lemma RetainsTheOne(r: Row, cutoff: int)
    requires r.receivedAt >= cutoff
    ensures Retained([r], cutoff) == [r]
  {
    assert CountNewer([r], 0, 0) == 0 && !Newer([r], 0, 0);
    assert Rank([r], 0) == CountNewer([r], 1, 0) == 0;
    assert Newest100([r], 0, cutoff) == [];
    assert Newest100([r], 1, cutoff) == [] + [r];
  }

  lemma PurgesTheOne(r: Row, cutoff: int)
    requires r.receivedAt < cutoff
    ensures Purge([r], cutoff, {}) == []
  {
    assert Purge([r][..0], cutoff, {}) == [];
  }

  /** Forwarding is set, the message arrives, is recorded, and its deletion fails. */
  lemma MessageWaits(path: string, o: Object, stamp: string, to: string, start: int, now: int, id: Id, dialable: string -> bool)
      returns (ss: seq<Sys>, steps: seq<Step>)
    requires Fit(path, o, stamp, to, start, dialable)
    ensures IsHistory(ss, steps, dialable) && |steps| == 4 && ss[4] == Waiting(path, o, stamp, to, start, now, id)
    ensures steps[0] == Setting(to, start, false) && steps[1] == Arrive(path, o)
    ensures steps[2] == Receive(path, stamp, now, id) && steps[3] == DeleteCopy
  {
    hide Body, Segments, Contains, ValidDestination;
    var m, at := MessageOf(path, o, stamp), start / 1000 * 1000;
    var s0 := Sys(Db([], map[], map[], map[], OFF, 0), map[], map[], Idle, OFF, 0, None, History([], [], [], [], {}));
    var s1 := s0.(db := s0.db.(destination := to, activatedAt := at), setting := to, activated := at);
    assert Configured(s0.db, to, start, s1.db);
    var s2 := s1.(modem := map[path := o]);
    var s4 := Waiting(path, o, stamp, to, start, now, id);
    var s3 := s4.(delivered := map[], work := Deleting(path, Named(o), false), history := s4.history.(deletions := []));
    ss, steps := [s0], [];
    NoRun(s0, dialable);
    ss, steps := RunGrows(ss, steps, Setting(to, start, false), s1, dialable);
    ss, steps := RunGrows(ss, steps, Arrive(path, o), s2, dialable);
    FirstRecord(s2, path, o, stamp, to, start, now, id, dialable, s3);
    ss, steps := RunGrows(ss, steps, Receive(path, stamp, now, id), s3, dialable);
    ss, steps := RunGrows(ss, steps, DeleteCopy, s4, dialable);
  }

  lemma FirstRecord(s: Sys, path: string, o: Object, stamp: string, to: string, start: int, now: int, id: Id,
                    dialable: string -> bool, s': Sys)
    requires Fit(path, o, stamp, to, start, dialable)
    requires var at := start / 1000 * 1000;
             s == Sys(Db([], map[], map[], map[], to, at), map[path := o], map[], Idle, to, at, None, History([], [], [], [], {}))
    requires var w := Waiting(path, o, stamp, to, start, now, id);
             s' == w.(delivered := map[], work := Deleting(path, Named(o), false), history := w.history.(deletions := []))
    ensures Next(s, Receive(path, stamp, now, id), s', dialable)
  {
    hide Admissible, Retained, JobOf;
    var m := MessageOf(path, o, stamp);
    RetainsTheOne(RowOf(m, id, now), now - INBOX_MAX_AGE);
    assert s'.db.inbox == s.db.inbox + [RowOf(m, id, now)];
    assert RowOf(m, id, now).id in Ids(s'.db.inbox);
    assert Recorded(s.db, m, now, to, s.activated, id, dialable, s'.db, true, id);
    assert Delivers(s, path, o, stamp, now, id, dialable, s');
  }

  lemma WaitingIsSendable(path: string, o: Object, stamp: string, to: string, start: int, now: int, id: Id, dialable: string -> bool)
    requires Fit(path, o, stamp, to, start, dialable)
    ensures var w := Waiting(path, o, stamp, to, start, now, id);
            && Sendable(w.db, id, now, "", dialable) && ValidDestination(to, dialable)
            && w.db.jobs == map[id := w.db.jobs[id]] && w.db.jobs[id].destination == to
            && w.setting == to && w.flight.None? && w.work.Idle?
  {
    hide ValidDestination, Body, Segments, Contains;
  }

  /** The deletion of a status report takes a text that came to its path in the meantime, and
      nothing was ever recorded. */
  lemma TextIsTakenOver(path: string, report: Object, o: Object, stamp: string, now: int, id: Id, dialable: string -> bool)
      returns (ss: seq<Sys>, steps: seq<Step>)
    requires path != "" && Disposable(report) && InboundText(o) && Named(o) != NO_IDENTITY
    ensures IsHistory(ss, steps, dialable)
    ensures steps == [Arrive(path, report), Receive(path, stamp, now, id), Vanish(path), Arrive(path, o), DeleteCopy]
    ensures path in ss[4].modem && ss[4].modem[path] == o && path !in ss[5].modem
    ensures ss[5].history.created == [] && ss[5].db.copies == map[]
  {
    hide Disposable, InboundText, Named;
    var s0 := Sys(Db([], map[], map[], map[], OFF, 0), map[], map[], Idle, OFF, 0, None, History([], [], [], [], {}));
    var s1 := s0.(modem := map[path := report]);
    var s2 := s1.(work := Discarding(path));
    var s3 := s2.(modem := s2.modem - {path});
    var s4 := s3.(modem := s3.modem[path := o]);
    var s5 := s4.(modem := s4.modem - {path}, work := Idle);
    ss, steps := [s0], [];
    NoRun(s0, dialable);
    ss, steps := RunGrows(ss, steps, Arrive(path, report), s1, dialable);
    ss, steps := RunGrows(ss, steps, Receive(path, stamp, now, id), s2, dialable);
    ss, steps := RunGrows(ss, steps, Vanish(path), s3, dialable);
    ss, steps := RunGrows(ss, steps, Arrive(path, o), s4, dialable);
    ss, steps := RunGrows(ss, steps, DeleteCopy, s5, dialable);
  }

  /** A failed write in action, for any fit message and any other setting: the setting
      changes but is not written, changes back, and the job goes out. */
  lemma FailedWriteSendsOn(path: string, o: Object, stamp: string, to: string, other: string, start: int, now: int, id: Id,
                           dialable: string -> bool) returns (ss: seq<Sys>, steps: seq<Step>)
    requires Fit(path, o, stamp, to, start, dialable) && start <= now
    ensures IsHistory(ss, steps, dialable) && |steps| == 8 && Clocked(steps, start)
    ensures steps[4] == Setting(other, now, true) && steps[5] == Setting(to, now, false) && steps[6] == Reserve(now, "")
    ensures id in ss[4].db.jobs && ss[4].db.jobs[id].state == Queued && ss[4].db.jobs[id].destination == to
    ensures ss[5].setting == OFF && steps[7] == HandOver && HandedOver(ss[8].history.sends, id)
  {
    hide Next, Sendable, Charged, HandedOver, Fit, Waiting, Swept, Clocked;
    ss, steps := MessageWaits(path, o, stamp, to, start, now, id, dialable);
    WaitingIsSendable(path, o, stamp, to, start, now, id, dialable);
    var w := ss[4];
    SendableIsValid(w.db, id, now, "", dialable);
    var s5 := Unwritten(w, other, now, dialable);
    ss, steps := RunGrows(ss, steps, Setting(other, now, true), s5, dialable);
    var s6 := SetTo(s5, to, now, dialable);
    SendableDepends(w.db, s6.db, id, now, "", dialable);
    ss, steps := RunGrows(ss, steps, Setting(to, now, false), s6, dialable);
    var s7 := ReserveAlone(s6, id, now, "", dialable);
    ss, steps := RunGrows(ss, steps, Reserve(now, ""), s7, dialable);
    var s8 := HandsOver(s7, true, dialable);
    ss, steps := RunGrows(ss, steps, HandOver, s8, dialable);
    ThreeTimes(steps, start, now, now);
  }

  lemma Unwritten(s: Sys, value: string, now: int, dialable: string -> bool) returns (s': Sys)
    requires s.flight.None?
    ensures s' == s.(setting := OFF) && Next(s, Setting(value, now, true), s', dialable)
  {
    s' := s.(setting := OFF);
  }

  lemma HandsOver(s: Sys, sent: bool, dialable: string -> bool) returns (s': Sys)
    requires s.flight.Some? && !s.flight.value.handed && s.work.Idle?
    ensures Next(s, HandOver, s', dialable) && HandedOver(s'.history.sends, s.flight.value.job.id)
    ensures s' == s.(flight := Some(Flight(s.flight.value.job, true, sent)), history := s'.history)
    ensures s'.history == s.history.(sends := s'.history.sends)
  {
    hide HandedOver;
    var f := s.flight.value;
    var h := Handoff(f.job.id, f.job.to, s.setting);
    s' := s.(flight := Some(Flight(f.job, true, sent)), history := s.history.(sends := s.history.sends + [h]));
    SentGrows(s.history.sends, h, f.job.id);
  }

  lemma FitIsInbound(path: string, o: Object, stamp: string, to: string, start: int, dialable: string -> bool)
    requires Fit(path, o, stamp, to, start, dialable)
    ensures path != "" && InboundText(o) && Named(o) != NO_IDENTITY
  {
  }

  /** The message waits, its job is reserved, and its row grows too old meanwhile. */
  lemma RowGoesFirst(path: string, o: Object, stamp: string, to: string, start: int, now: int, id: Id, dialable: string -> bool)
      returns (ss: seq<Sys>, steps: seq<Step>)
    requires Fit(path, o, stamp, to, start, dialable)
    ensures IsHistory(ss, steps, dialable) && |steps| == 6
    ensures steps[0] == Setting(to, start, false) && steps[1] == Arrive(path, o)
    ensures steps[2] == Receive(path, stamp, now, id) && steps[3] == DeleteCopy
    ensures steps[4] == Reserve(now, "") && steps[5] == List(now + INBOX_MAX_AGE + 1)
    ensures var s := ss[6];
            && s.flight.Some? && s.flight.value.job.id == id && !s.flight.value.handed && s.work.Idle?
            && s.db.inbox == [] && id in s.db.jobs && s.db.jobs[id].state == Sending
            && s.modem == map[path := o] && s.db.copies == map[path := Copy(Named(o), id)]
            && s.history.used == {id} && NoOrphans(s.db)
  {
    hide Next, Sendable, Charged, Waiting, Fit, NoOrphans, Swept, Named;
    ss, steps := MessageWaits(path, o, stamp, to, start, now, id, dialable);
    WaitingIsSendable(path, o, stamp, to, start, now, id, dialable);
    var w := ss[4];
    var s5 := ReserveAlone(w, id, now, "", dialable);
    ss, steps := RunGrows(ss, steps, Reserve(now, ""), s5, dialable);
    ReservedStays(path, o, stamp, to, start, now, id, "");
    var s6 := RowAges(s5, RowOf(MessageOf(path, o, stamp), id, now), id, dialable);
    ss, steps := RunGrows(ss, steps, List(now + INBOX_MAX_AGE + 1), s6, dialable);
  }

  /** An orphan in action, for any fit message: its row grows too old while the job is
      being sent, the process restarts, and the copy, still in the modem, is recognised.
      The record of it commits and leaves the job without a row. */
  lemma OrphanOutlivesRecord(path: string, o: Object, stamp: string, to: string, start: int, now: int, id: Id, again: Id,
                             dialable: string -> bool) returns (ss: seq<Sys>, steps: seq<Step>)
    requires Fit(path, o, stamp, to, start, dialable) && again != id && start <= now
    ensures IsHistory(ss, steps, dialable) && |steps| == 10 && Clocked(steps, start)
    ensures steps[4] == Reserve(now, "") && steps[5] == List(now + INBOX_MAX_AGE + 1) && steps[6] == HandOver && steps[7] == Finish
    ensures steps[8] == Restart && steps[9] == Receive(path, stamp, now + INBOX_MAX_AGE + 1, again)
    ensures Known(ss[9].db, MessageOf(path, o, stamp)) && ss[10].work == Deleting(path, Named(o), false)
    ensures NoOrphans(ss[6].db) && !NoOrphans(ss[10].db)
  {
    hide Next, HandedOver, Fit, NoOrphans, InboundText, Known, Clocked, TimeOf, Named;
    FitIsInbound(path, o, stamp, to, start, dialable);
    ss, steps := RowGoesFirst(path, o, stamp, to, start, now, id, dialable);
    var s7 := HandsOver(ss[6], true, dialable);
    ss, steps := RunGrows(ss, steps, HandOver, s7, dialable);
    var s8, s9, s10 := OrphanStays(s7, path, o, stamp, now + INBOX_MAX_AGE + 1, id, again, dialable);
    ss, steps := RunGrows(ss, steps, Finish, s8, dialable);
    ss, steps := RunGrows(ss, steps, Restart, s9, dialable);
    ss, steps := RunGrows(ss, steps, Receive(path, stamp, now + INBOX_MAX_AGE + 1, again), s10, dialable);
    OrphanClock(steps, path, o, stamp, to, start, now, id, again);
  }

  lemma OrphanClock(steps: seq<Step>, path: string, o: Object, stamp: string, to: string, start: int, now: int, id: Id, again: Id)
    requires |steps| == 10 && start <= now
    requires steps[0] == Setting(to, start, false) && steps[1] == Arrive(path, o)
    requires steps[2] == Receive(path, stamp, now, id) && steps[3] == DeleteCopy
    requires steps[4] == Reserve(now, "") && steps[5] == List(now + INBOX_MAX_AGE + 1) && steps[6] == HandOver && steps[7] == Finish
    requires steps[8] == Restart && steps[9] == Receive(path, stamp, now + INBOX_MAX_AGE + 1, again)
    ensures Clocked(steps, start)
  {
    ThreeTimes(steps, start, now, now + INBOX_MAX_AGE + 1);
  }

  /** The row of the job being sent goes; the job stays. */
  lemma RowAges(s: Sys, r: Row, id: Id, dialable: string -> bool) returns (s': Sys)
    requires s.db.inbox == [r] && s.db.jobs.Keys == {id} && s.db.jobs[id].state == Sending
    ensures s' == s.(db := s.db.(inbox := [])) && Next(s, List(r.receivedAt + INBOX_MAX_AGE + 1), s', dialable)
    ensures NoOrphans(s'.db)
  {
    s' := s.(db := s.db.(inbox := []));
    PurgesTheOne(r, r.receivedAt + 1);
    assert Aged(s.db, r.receivedAt + INBOX_MAX_AGE + 1, s'.db);
  }

  /** What a reservation leaves of the waiting message. */
  lemma ReservedStays(path: string, o: Object, stamp: string, to: string, start: int, now: int, id: Id, own: string)
    ensures var w := Waiting(path, o, stamp, to, start, now, id);
            var jobs := Swept(w.db.jobs, now, to, own, true)[id := StartedOn(w.db.jobs[id], DayOf(now))];
            && jobs.Keys == {id} && jobs[id].state == Sending
            && w.db.inbox == [RowOf(MessageOf(path, o, stamp), id, now)]
            && w.modem == map[path := o] && w.db.copies == map[path := Copy(Named(o), id)] && w.history.used == {id}
  {
    hide Body, Segments;
  }

  /** The job ends as sent; a restart forgets the copy; receiving it again recognises it. */
  lemma OrphanStays(s: Sys, path: string, o: Object, stamp: string, now: int, id: Id, again: Id, dialable: string -> bool)
      returns (s1: Sys, s2: Sys, s3: Sys)
    requires s.flight.Some? && s.flight.value.handed && s.flight.value.sent && s.flight.value.job.id == id
    requires s.db.inbox == [] && id in s.db.jobs && s.db.jobs[id].state == Sending
    requires path != "" && s.modem == map[path := o] && InboundText(o) && Named(o) != NO_IDENTITY
    requires s.db.copies == map[path := Copy(Named(o), id)] && again !in s.history.used
    ensures Next(s, Finish, s1, dialable) && Next(s1, Restart, s2, dialable)
    ensures Next(s2, Receive(path, stamp, now, again), s3, dialable)
    ensures Known(s2.db, MessageOf(path, o, stamp)) && s3.work == Deleting(path, Named(o), false) && !NoOrphans(s3.db)
  {
    s1 := s.(flight := None, db := s.db.(jobs := Finished(s.db.jobs, id, true)));
    s2 := s1.(db := s1.db.(jobs := Recovered(s1.db.jobs)), delivered := map[], work := Idle, setting := OFF, activated := 0, flight := None);
    s3 := s2.(work := Deleting(path, Named(o), false), history := s2.history.(used := s2.history.used + {again}));
    assert Recorded(s2.db, MessageOf(path, o, stamp), now, OFF, 0, again, dialable, s3.db, false, id);
    assert Delivers(s2, path, o, stamp, now, again, dialable, s3);
    assert id in s3.db.jobs && s3.db.jobs[id].state == Sent && id !in Ids(s3.db.inbox);
  }

  // ----- a message that is fit -----

  const PHONE: string := "+4915112345678"
  const OTHER: string := "+4915187654321"

  const GREETING := Object(OtherState, OtherPdu, "+4930123456", "Hi", "1970-01-01T00:00:06Z", Some(6000), false)

  lemma GreetingIsFit(dialable: string -> bool)
    requires dialable(PHONE)
    ensures Fit("/sms/1", GREETING, "", PHONE, 5000, dialable)
  {
    GreetingIsShort();
    PhoneIsValid(dialable);
    hide ValidDestination, Segments, Body, Contains;
    assert Named(GREETING).number[0] == '+';
  }

  lemma PhoneIsValid(dialable: string -> bool)
    requires dialable(PHONE)
    ensures ValidDestination(PHONE, dialable) && PHONE != OFF && GREETING.number != PHONE
  {
  }

  lemma GreetingIsShort()
    ensures var m := MessageOf("/sms/1", GREETING, ""); Segments(Body(m)) <= MAX_SEGMENTS && !Contains(m.text, MARKER)
  {
    hide Segments;
    var m := MessageOf("/sms/1", GREETING, "");
    assert |Body(m)| <= 335;
    ShortTextFits(Body(m));
  }

  /** The two runs exist. */
  lemma BothHappen(dialable: string -> bool) returns (ss: seq<Sys>, steps: seq<Step>, ss': seq<Sys>, steps': seq<Step>)
    requires dialable(PHONE)
    ensures IsHistory(ss, steps, dialable) && |steps| == 8 && steps[4] == Setting(OTHER, 10000, true) && Target(OTHER, dialable) != PHONE
    ensures 7 in ss[4].db.jobs && ss[4].db.jobs[7].state == Queued && HandedOver(ss[8].history.sends, 7)
    ensures IsHistory(ss', steps', dialable) && |steps'| == 10 && steps'[9].Receive?
    ensures ss'[10].work.Deleting? && !ss'[10].work.retry && !NoOrphans(ss'[10].db)
  {
    hide Fit, IsHistory, HandedOver, NoOrphans, Known;
    GreetingIsFit(dialable);
    assert PHONE[6] != OTHER[6] && PHONE != OFF;
    ss, steps := FailedWriteSendsOn("/sms/1", GREETING, "", PHONE, OTHER, 5000, 10000, 7, dialable);
    ss', steps' := OrphanOutlivesRecord("/sms/1", GREETING, "", PHONE, 5000, 10000, 7, 8, dialable);
  }

  // ----- a text that says nothing -----

  /** An inbound text without number, text or timestamp, read as soon as it arrives, is
      deleted, and nothing was ever recorded. */
  lemma EmptyTextIsLost(path: string, o: Object, stamp: string, now: int, id: Id, dialable: string -> bool)
      returns (ss: seq<Sys>, steps: seq<Step>)
    requires path != "" && InboundText(o) && Named(o) == NO_IDENTITY
    ensures IsHistory(ss, steps, dialable) && steps == [Arrive(path, o), Receive(path, stamp, now, id), DeleteCopy]
    ensures path in ss[1].modem && path !in ss[3].modem && ss[3].db == ss[0].db && ss[3].history.created == []
  {
    var s0 := Sys(Db([], map[], map[], map[], OFF, 0), map[], map[], Idle, OFF, 0, None, History([], [], [], [], {}));
    var s1 := s0.(modem := map[path := o]);
    var s2 := s1.(work := Deleting(path, Named(o), true));
    var s3 := s2.(modem := s2.modem - {path}, delivered := s2.delivered - {path}, work := Forgetting(path),
                  history := s2.history.(deletions := [Deletion(path, Named(o))]));
    ss, steps := [s0], [];
    NoRun(s0, dialable);
    ss, steps := RunGrows(ss, steps, Arrive(path, o), s1, dialable);
    ss, steps := RunGrows(ss, steps, Receive(path, stamp, now, id), s2, dialable);
    ss, steps := RunGrows(ss, steps, DeleteCopy, s3, dialable);
  }
}

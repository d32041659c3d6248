/** The SMS pipeline as a state machine: the modem's message store, the manager that
    drains it, the durable tables, and the forwarding loop. Each step is one atomic
    action under the lock the service holds for it; a crash may fall between any two. */
module SmsProtocol {
  import opened Wrappers
  import opened SmsText
  import opened SmsInbox
  import opened SmsStore

  datatype SmsState = Receiving | SendingOut | SentOut | OtherState
  datatype Pdu = StatusReport | Submit | OtherPdu

  /** A message object in the modem. `sourceTime` is its timestamp in milliseconds, if it parses. */
  datatype Object = Object(state: SmsState, pdu: Pdu, number: string, text: string, time: string, sourceTime: Option<int>, binary: bool)

  predicate Disposable(o: Object) {
    !o.state.Receiving? && (o.pdu.StatusReport? || o.pdu.Submit? || o.state.SendingOut? || o.state.SentOut?)
  }

  predicate InboundText(o: Object) {
    !o.state.Receiving? && !Disposable(o) && !o.binary
  }

  function Named(o: Object): Identity {
    Identity(o.number, o.text, o.time)
  }

  function MessageOf(path: string, o: Object, stamp: string): Message {
    Message(o.number, o.text, stamp, path, o.time, o.sourceTime)
  }

  /** What the manager is in the middle of, holding its mutex. */
  datatype Work = Idle | Discarding(path: string) | Deleting(path: string, identity: Identity, retry: bool) | Forgetting(path: string)

  /** A reserved job on its way; the forwarding mutex is held meanwhile. */
  datatype Flight = Flight(job: ForwardJob, handed: bool, sent: bool)

  datatype Creation = Creation(path: string, identity: Identity, id: Id)
  datatype Charge = Charge(id: Id, day: int, segments: nat)
  datatype Handoff = Handoff(id: Id, to: string, setting: string)
  datatype Deletion = Deletion(path: string, identity: Identity)

  /** Everything that ever happened: rows created from modem copies, jobs reserved,
      jobs handed to the modem, inbound copies whose deletion was requested, ids drawn. */
  datatype History = History(created: seq<Creation>, charges: seq<Charge>, sends: seq<Handoff>, deletions: seq<Deletion>, used: set<Id>)

  /** `setting` and `activated` are the forwarding destination as the process knows it. */
  datatype Sys = Sys(db: Db, modem: map<string, Object>, delivered: map<string, Identity>, work: Work,
                     setting: string, activated: int, flight: Option<Flight>, history: History)

  datatype Step =
    | Arrive(path: string, object_: Object)
    | Vanish(path: string)
    | Receive(path: string, stamp: string, now: int, newId: Id)
    | DeleteCopy
    | Forget
    | Setting(value: string, at: int, fails: bool)
    | Reserve(when: int, own: string)
    | HandOver
    | Finish
    | Remove(id: Id)
    | List(asOf: int)
    | Restart

  /** When a step that looks at the clock happens. */
  function TimeOf(step: Step): Option<int> {
    match step
    case Receive(_, _, now, _) => Some(now)
    case Setting(_, at, _) => Some(at)
    case Reserve(when, _) => Some(when)
    case List(asOf) => Some(asOf)
    case _ => None
  }

  /** The clock starts at `from` or later and never runs backwards. */
  ghost predicate Clocked(steps: seq<Step>, from: int) {
    && (forall i :: 0 <= i < |steps| && TimeOf(steps[i]).Some? ==> TimeOf(steps[i]).value >= from)
    && (forall i, j :: 0 <= i < j < |steps| && TimeOf(steps[i]).Some? && TimeOf(steps[j]).Some? ==>
          TimeOf(steps[i]).value <= TimeOf(steps[j]).value)
  }

  /** The remembered identity of an undeleted copy; a path nobody remembers reads as all-empty. */
  function Remembered(delivered: map<string, Identity>, path: string): Identity {
    if path in delivered then delivered[path] else NO_IDENTITY
  }

  ghost predicate Receives(s: Sys, path: string, stamp: string, now: int, newId: Id, dialable: string -> bool, s': Sys) {
    || s' == s   // the properties could not be read, or the delivery failed
    || (&& path in s.modem
        && var o := s.modem[path];
           if Disposable(o) then s' == s.(work := Discarding(path))
           else if !InboundText(o) then s' == s
           else if Remembered(s.delivered, path) == Named(o) then s' == s.(work := Deleting(path, Named(o), true))
           else Delivers(s, path, o, stamp, now, newId, dialable, s'))
  }

  ghost predicate Delivers(s: Sys, path: string, o: Object, stamp: string, now: int, newId: Id, dialable: string -> bool, s': Sys) {
    exists created, id ::
      && Recorded(s.db, MessageOf(path, o, stamp), now, s.setting, s.activated, newId, dialable, s'.db, created, id)
      && s' == s.(db := s'.db, work := Deleting(path, Named(o), false),
                  history := s.history.(used := s.history.used + {newId},
                                        created := if created then s.history.created + [Creation(path, Named(o), id)] else s.history.created))
  }

  /** The deletion may fail, and a failed one may still have taken effect. */
  predicate Deletes(s: Sys, s': Sys) {
    match s.work
    case Discarding(path) => (s'.modem == s.modem || s'.modem == s.modem - {path}) && s' == s.(modem := s'.modem, work := Idle)
    case Deleting(path, identity, retry) =>
      var h := s.history.(deletions := s.history.deletions + [Deletion(path, identity)]);
      || s' == s.(modem := s.modem - {path}, delivered := s.delivered - {path}, work := Forgetting(path), history := h)
      || (&& (s'.modem == s.modem || s'.modem == s.modem - {path})
          && s' == s.(modem := s'.modem, work := Idle, history := h,
                      delivered := if retry then s.delivered else s.delivered[path := identity]))
    case _ => false
  }

  /** The destination a setting asks for. */
  function Target(value: string, dialable: string -> bool): string {
    if ValidDestination(value, dialable) then value else OFF
  }

  /** A write that fails turns forwarding off until the next setting. */
  predicate Configures(s: Sys, value: string, now: int, fails: bool, dialable: string -> bool, s': Sys) {
    var v := Target(value, dialable);
    if fails then s' == s.(setting := OFF)
    else Configured(s.db, v, now, s'.db) && s' == s.(db := s'.db, setting := v, activated := s'.db.activatedAt)
  }

  ghost predicate Reserves(s: Sys, now: int, own: string, dialable: string -> bool, s': Sys) {
    || s' == s
    || (Reserved(s.db, now, s.setting, own, dialable, s'.db, None) && s' == s.(db := s'.db))
    || (&& s'.flight.Some?
        && var f := s'.flight.value.job;
           && Reserved(s.db, now, s.setting, own, dialable, s'.db, Some(f))
           && s' == s.(db := s'.db, flight := Some(Flight(f, false, false)),
                       history := s.history.(charges := s.history.charges + [Charge(f.id, DayOf(now), f.segments)])))
  }

  ghost predicate Next(s: Sys, step: Step, s': Sys, dialable: string -> bool) {
    match step
    case Arrive(path, o) => path !in s.modem && s' == s.(modem := s.modem[path := o])
    case Vanish(path) => s' == s.(modem := s.modem - {path})
    case Receive(path, stamp, now, newId) => s.work.Idle? && path != "" && newId !in s.history.used && Receives(s, path, stamp, now, newId, dialable, s')
    case DeleteCopy => Deletes(s, s')
    case Forget =>
      && s.work.Forgetting?
      && (s' == s.(work := Idle) || s' == s.(work := Idle, db := s.db.(copies := s.db.copies - {s.work.path})))
    case Setting(value, now, fails) => s.flight.None? && Configures(s, value, now, fails, dialable, s')
    case Reserve(now, own) => s.flight.None? && s.setting != OFF && Reserves(s, now, own, dialable, s')
    case HandOver =>
      && s.flight.Some? && !s.flight.value.handed && s.work.Idle?
      && var f := s.flight.value;
         && s'.flight.Some? && s'.flight.value == f.(handed := true, sent := s'.flight.value.sent)
         && s' == s.(flight := s'.flight,
                     history := s.history.(sends := s.history.sends + [Handoff(f.job.id, f.job.to, s.setting)]))
    case Finish =>
      && s.flight.Some?
      && var f := s.flight.value;
         || s' == s.(flight := None)
         || s' == s.(flight := None, db := s.db.(jobs := Finished(s.db.jobs, f.job.id, f.handed && f.sent)))
    case Remove(id) => s' == s || (Removed(s.db, id, s'.db) && s' == s.(db := s'.db))
    case List(now) => s' == s || (Aged(s.db, now, s'.db) && s' == s.(db := s'.db))
    case Restart =>
      s' == s.(db := s.db.(jobs := Recovered(s.db.jobs)), delivered := map[], work := Idle, setting := OFF, activated := 0, flight := None)
  }

  predicate Init(s: Sys) {
    && s.db == Db([], map[], map[], map[], OFF, 0)
    && s.delivered == map[] && s.work == Idle && s.setting == OFF && s.activated == 0 && s.flight == None
    && s.history == History([], [], [], [], {})
  }

  ghost predicate IsRun(ss: seq<Sys>, steps: seq<Step>, dialable: string -> bool) {
    && |ss| == |steps| + 1
    && forall i :: 0 <= i < |steps| ==> Next(ss[i], steps[i], ss[i + 1], dialable)
  }

  /** A run that starts with an empty database. */
  ghost predicate IsHistory(ss: seq<Sys>, steps: seq<Step>, dialable: string -> bool) {
    IsRun(ss, steps, dialable) && Init(ss[0])
  }

  lemma NoRun(s: Sys, dialable: string -> bool)
    ensures IsRun([s], [], dialable)
  {
  }

  lemma RunGrows(ss: seq<Sys>, steps: seq<Step>, step: Step, s': Sys, dialable: string -> bool) returns (ss': seq<Sys>, steps': seq<Step>)
    requires IsRun(ss, steps, dialable) && |ss| == |steps| + 1 && Next(ss[|steps|], step, s', dialable)
    ensures ss' == ss + [s'] && steps' == steps + [step] && IsRun(ss', steps', dialable)
  {
    hide Next;
    ss', steps' := ss + [s'], steps + [step];
  }

  lemma RunsCompose(ss: seq<Sys>, steps: seq<Step>, ss': seq<Sys>, steps': seq<Step>, dialable: string -> bool)
    requires IsRun(ss, steps, dialable) && IsRun(ss', steps', dialable) && ss[|steps|] == ss'[0]
    ensures IsRun(ss[..|steps|] + ss', steps + steps', dialable)
  {
    hide Next;
    var all, both := ss[..|steps|] + ss', steps + steps';
    forall i | 0 <= i < |both| ensures Next(all[i], both[i], all[i + 1], dialable) {
      if i < |steps| {
        assert all[i] == ss[i] && all[i + 1] == ss[i + 1];
        assert Next(ss[i], steps[i], ss[i + 1], dialable);
      } else {
        assert Next(ss'[i - |steps|], steps'[i - |steps|], ss'[i - |steps| + 1], dialable);
      }
    }
  }
}

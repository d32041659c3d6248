/** The code that walks the pipeline: the manager that drains the modem's store, the
    delivery callback, the settings handler and the forwarding loop. Every method is a
    run of the protocol's steps. */
module SmsService {
  import opened Wrappers
  import opened SmsText
  import opened SmsInbox
  import opened SmsStore
  import opened SmsProtocol
  import opened SmsForwarding
  import opened SmsExactlyOnce

  /** What the environment makes of the calls for one modem object. A failed deletion
      may still have taken effect (`gone`). */
  datatype Faults = Faults(read: bool, record: bool, delete: bool, gone: bool, release: bool)

  /** The modem's message store. */
  class Modem {
    var objects: map<string, Object>

    constructor ()
      ensures objects == map[]
    {
      objects := map[];
    }

    method GetProperties(path: string, fails: bool) returns (o: Option<Object>)
      ensures o == if fails || path !in objects then None else Some(objects[path])
    {
      o := if fails || path !in objects then None else Some(objects[path]);
    }

    method DeleteSMS(path: string, fails: bool, gone: bool)
      modifies this
      ensures objects == if fails && !gone then old(objects) else old(objects) - {path}
    {
      if !fails || gone {
        objects := objects - {path};
      }
    }
  }

  /** How far the handling of one modem object got. */
  datatype Handled = Unreadable | Left | Discarded | Undelivered | Undeleted | Drained

  /** How far it is to get: every branch, and every fault. */
  function Outcome(objects: map<string, Object>, delivered: map<string, Identity>, path: string, f: Faults): Handled {
    if f.read || path !in objects then Unreadable
    else
      var o := objects[path];
      if Disposable(o) then Discarded
      else if !InboundText(o) then Left
      else if f.record && Remembered(delivered, path) != Named(o) then Undelivered
      else if f.delete then Undeleted
      else Drained
  }

  /** The steps of the protocol such a handling takes. */
  predicate Walks(h: Handled, path: string, steps: seq<Step>) {
    match h
    case Unreadable => steps == []
    case Left => steps == []
    case Undelivered => steps == []
    case Discarded => |steps| == 2 && ReceivesPath(steps[0], path) && steps[1].DeleteCopy?
    case Undeleted => |steps| == 2 && ReceivesPath(steps[0], path) && steps[1].DeleteCopy?
    case Drained => |steps| == 3 && ReceivesPath(steps[0], path) && steps[1].DeleteCopy? && steps[2].Forget?
  }

  /** The copy `o` is about to be deleted, delivered earlier (`known`) or recorded just now. */
  predicate IsDelivered(s: Sys, path: string, o: Object, known: bool) {
    s.work == Deleting(path, Named(o), known) && (!known ==> HasCopy(s, path, Named(o)))
  }

  predicate ReceivesPath(step: Step, path: string) {
    step.Receive? && step.path == path
  }

  class Service {
    const store: Store
    const modem: Modem
    var delivered: map<string, Identity>
    var setting: string
    var activated: int
    var flight: Option<Flight>
    ghost var work: Work
    ghost var history: History

    constructor (store: Store, modem: Modem)
      requires store.Tables() == Db([], map[], map[], map[], OFF, 0)
      ensures this.store == store && this.modem == modem && Init(State()) && Valid()
    {
      this.store, this.modem := store, modem;
      delivered, setting, activated, flight := map[], OFF, 0, None;
      work, history := Idle, History([], [], [], [], {});
      new;
      InitIsSound(State());
    }

    ghost function State(): Sys
      reads this, store, modem
    {
      Sys(store.Tables(), modem.objects, delivered, work, setting, activated, flight, history)
    }

    ghost predicate Valid()
      reads this, store, modem
    {
      InboxSound(State()) && QueueSound(State())
    }

    /** Commits an inbound message to the inbox, with the destination known now. */
    method DeliverIncoming(path: string, o: Object, stamp: string, now: int, newId: Id, fails: bool) returns (ok: bool)
      requires Valid() && work.Idle? && path != "" && newId !in history.used
      requires path in modem.objects && modem.objects[path] == o && InboundText(o)
      requires Remembered(delivered, path) != Named(o)
      modifies this`work, this`history, store
      ensures Valid() && Next(old(State()), Receive(path, stamp, now, newId), State(), store.dialable)
      ensures ok == !fails && work == (if ok then Deleting(path, Named(o), false) else Idle)
      ensures !ok ==> State() == old(State())
      ensures history.used <= old(history.used) + {newId}
    {
      hide Recorded;
      ghost var s := State();
      assert newId !in Ids(store.inbox) && newId !in store.jobs;
      var created, id := store.Record(MessageOf(path, o, stamp), now, setting, activated, newId, fails);
      ok := !fails;
      if ok {
        history := history.(used := history.used + {newId},
                            created := if created then history.created + [Creation(path, Named(o), id)] else history.created);
        work := Deleting(path, Named(o), false);
        assert Delivers(s, path, o, stamp, now, newId, store.dialable, State());
      }
      KeepsValid(s, Receive(path, stamp, now, newId), State(), store.dialable);
    }

    /** Deletes a status report or a stale outbound message. */
    method Discard(path: string, stamp: string, now: int, newId: Id, f: Faults) returns (ghost mid: Sys)
      requires Valid() && work.Idle? && path != "" && newId !in history.used
      requires path in modem.objects && Disposable(modem.objects[path])
      modifies this`work, modem
      ensures Valid() && work.Idle? && history == old(history) && store.Tables() == old(store.Tables()) && delivered == old(delivered)
      ensures Next(old(State()), Receive(path, stamp, now, newId), mid, store.dialable)
      ensures Next(mid, DeleteCopy, State(), store.dialable)
      ensures modem.objects == if f.delete && !f.gone then old(modem.objects) else old(modem.objects) - {path}
    {
      hide Next, InboxSound, QueueSound;
      ghost var s0 := State();
      work := Discarding(path);
      mid := State();
      ReceiveIsStep(s0, path, stamp, now, newId, mid, store.dialable);
      KeepsValid(s0, Receive(path, stamp, now, newId), mid, store.dialable);
      modem.DeleteSMS(path, f.delete, f.gone);
      work := Idle;
      DiscardIsStep(mid, State(), path, store.dialable);
      KeepsValid(mid, DeleteCopy, State(), store.dialable);
    }

    /** Delivers an inbound text, unless it was delivered in an earlier round and only
        its deletion is to be retried. */
    method Accept(path: string, o: Object, stamp: string, now: int, newId: Id, fails: bool) returns (ok: bool, known: bool)
      requires Valid() && work.Idle? && path != "" && newId !in history.used
      requires path in modem.objects && modem.objects[path] == o && InboundText(o)
      modifies this`work, this`history, store
      ensures Valid() && history.used <= old(history.used) + {newId}
      ensures Next(old(State()), Receive(path, stamp, now, newId), State(), store.dialable)
      ensures known == (Remembered(delivered, path) == Named(o)) && ok == (known || !fails)
      ensures !ok ==> State() == old(State())
      ensures ok ==> work == Deleting(path, Named(o), known) && (!known ==> HasCopy(State(), path, Named(o)))
    {
      hide Next, InboxSound, QueueSound;
      ghost var s0 := State();
      known := Remembered(delivered, path) == Named(o);
      if known {
        ok := true;
        work := Deleting(path, Named(o), true);
        ReceiveIsStep(s0, path, stamp, now, newId, State(), store.dialable);
        KeepsValid(s0, Receive(path, stamp, now, newId), State(), store.dialable);
      } else {
        ok := DeliverIncoming(path, o, stamp, now, newId, fails);
        if ok {
          DeliveredHasCopy(s0, path, stamp, now, newId, State(), store.dialable);
        }
      }
    }

    /** An inbound text: delivered, then deleted, then forgotten, as far as each succeeds. */
    method HandleInbound(path: string, o: Object, stamp: string, now: int, newId: Id, f: Faults)
        returns (h: Handled, ghost ss: seq<Sys>, ghost steps: seq<Step>)
      requires Valid() && work.Idle? && path != "" && newId !in history.used
      requires !f.read && path in modem.objects && modem.objects[path] == o && InboundText(o)
      modifies this`work, this`history, this`delivered, store, modem
      ensures Valid() && work.Idle? && history.used <= old(history.used) + {newId}
      ensures IsRun(ss, steps, store.dialable) && ss[0] == old(State()) && ss[|steps|] == State()
      ensures h == Outcome(old(modem.objects), old(delivered), path, f) && Walks(h, path, steps)
      ensures h.Undelivered? ==> State() == old(State())
      ensures !h.Undelivered? ==> IsDelivered(ss[1], path, o, Remembered(old(delivered), path) == Named(o))
      ensures modem.objects == if h.Undelivered? || (f.delete && !f.gone) then old(modem.objects) else old(modem.objects) - {path}
      ensures h.Undeleted? ==> Remembered(delivered, path) == Named(o)
      ensures h.Drained? ==> path !in delivered && (!f.release ==> path !in store.copies)
    {
      hide Next, InboxSound, QueueSound, HasCopy, IsRun;
      ss, steps := [State()], [];
      NoRun(State(), store.dialable);
      var recorded, known := Accept(path, o, stamp, now, newId, f.record);
      if !recorded { return Undelivered, ss, steps; }
      ss, steps := RunGrows(ss, steps, Receive(path, stamp, now, newId), State(), store.dialable);
      ghost var ss', steps' := FinishCopy(path, Named(o), known, f);
      RunsCompose(ss, steps, ss', steps', store.dialable);
      ss, steps := ss[..1] + ss', steps + steps';
      h := if f.delete then Undeleted else Drained;
    }

    /** The second half: deletion, and the release of what was deleted. */
    method FinishCopy(path: string, identity: Identity, retry: bool, f: Faults) returns (ghost ss: seq<Sys>, ghost steps: seq<Step>)
      requires Valid() && work == Deleting(path, identity, retry)
      requires retry ==> Remembered(delivered, path) == identity
      modifies this`work, this`history, this`delivered, store, modem
      ensures Valid() && work.Idle? && history.used == old(history.used)
      ensures IsRun(ss, steps, store.dialable) && ss[0] == old(State()) && ss[|steps|] == State()
      ensures steps == if f.delete then [DeleteCopy] else [DeleteCopy, Forget]
      ensures modem.objects == if f.delete && !f.gone then old(modem.objects) else old(modem.objects) - {path}
      ensures f.delete ==> Remembered(delivered, path) == identity
      ensures !f.delete ==> path !in delivered && (!f.release ==> path !in store.copies)
    {
      hide Next, InboxSound, QueueSound, IsRun;
      ss, steps := [State()], [];
      NoRun(State(), store.dialable);
      RemoveCopy(path, identity, retry, f);
      ss, steps := RunGrows(ss, steps, DeleteCopy, State(), store.dialable);
      if !f.delete {
        ReleaseCopy(path, f.release);
        ss, steps := RunGrows(ss, steps, Forget, State(), store.dialable);
      }
    }

    /** Handles one object of the modem's store, from reading it to forgetting it. */
    method ProcessOne(path: string, stamp: string, now: int, newId: Id, f: Faults)
        returns (h: Handled, ghost ss: seq<Sys>, ghost steps: seq<Step>)
      requires Valid() && work.Idle? && path != "" && newId !in history.used
      modifies this`work, this`history, this`delivered, store, modem
      ensures Valid() && work.Idle? && history.used <= old(history.used) + {newId}
      ensures IsRun(ss, steps, store.dialable) && ss[0] == old(State()) && ss[|steps|] == State()
      ensures h == Outcome(old(modem.objects), old(delivered), path, f) && Walks(h, path, steps)
      ensures h.Undeleted? || h.Drained? ==>
                var o := old(modem.objects[path]); IsDelivered(ss[1], path, o, Remembered(old(delivered), path) == Named(o))
      ensures !f.read && path in old(modem.objects) ==>
                var o := old(modem.objects[path]);
                var outbound := o.pdu in {StatusReport, Submit} || o.state in {SendingOut, SentOut};
                && (h.Left? <==> o.state == SmsState.Receiving || (!outbound && o.binary))
                && (h.Discarded? <==> o.state != SmsState.Receiving && outbound)
      ensures h.Unreadable? <==> f.read || path !in old(modem.objects)
      ensures h.Unreadable? || h.Left? || h.Undelivered? ==> State() == old(State())
      ensures h.Discarded? ==> store.Tables() == old(store.Tables()) && delivered == old(delivered) && history == old(history)
      ensures modem.objects == if h.Unreadable? || h.Left? || h.Undelivered? || (f.delete && !f.gone) then old(modem.objects)
                               else old(modem.objects) - {path}
      ensures h.Undeleted? ==> Remembered(delivered, path) == Named(old(modem.objects[path]))
      ensures h.Drained? ==> path !in delivered && (!f.release ==> path !in store.copies)
    {
      hide Next, InboxSound, QueueSound, HasCopy, IsRun, IsDelivered;
      ss, steps := [State()], [];
      NoRun(State(), store.dialable);
      var props := modem.GetProperties(path, f.read);
      if props.None? { return Unreadable, ss, steps; }
      var o := props.value;
      if Disposable(o) {
        ghost var s1 := Discard(path, stamp, now, newId, f);
        ss, steps := RunGrows(ss, steps, Receive(path, stamp, now, newId), s1, store.dialable);
        ss, steps := RunGrows(ss, steps, DeleteCopy, State(), store.dialable);
        return Discarded, ss, steps;
      }
      if o.state.Receiving? || o.binary { return Left, ss, steps; }
      h, ss, steps := HandleInbound(path, o, stamp, now, newId, f);
    }

    /** Deletes a delivered copy, and remembers it if the modem keeps it. */
    method RemoveCopy(path: string, identity: Identity, retry: bool, f: Faults)
      requires Valid() && work == Deleting(path, identity, retry)
      requires retry ==> Remembered(delivered, path) == identity
      modifies this`work, this`history, this`delivered, modem
      ensures Valid() && Next(old(State()), DeleteCopy, State(), store.dialable)
      ensures history.used == old(history.used) && store.Tables() == old(store.Tables())
      ensures modem.objects == if f.delete && !f.gone then old(modem.objects) else old(modem.objects) - {path}
      ensures !f.delete ==> work == Forgetting(path) && path !in delivered
      ensures f.delete ==> work == Idle && Remembered(delivered, path) == identity
    {
      ghost var s := State();
      modem.DeleteSMS(path, f.delete, f.gone);
      history := history.(deletions := history.deletions + [Deletion(path, identity)]);
      if !f.delete {
        delivered := delivered - {path};
        work := Forgetting(path);
      } else {
        if !retry {
          delivered := delivered[path := identity];
        }
        work := Idle;
      }
      KeepsValid(s, DeleteCopy, State(), store.dialable);
    }

    /** Releases the durable identity of a copy the modem no longer holds. */
    method ReleaseCopy(path: string, fails: bool)
      requires Valid() && work == Forgetting(path)
      modifies this`work, store
      ensures Valid() && Next(old(State()), Forget, State(), store.dialable)
      ensures work.Idle? && store.copies == if fails then old(store.copies) else old(store.copies) - {path}
      ensures history == old(history)
    {
      ghost var s := State();
      store.ForgetModem(path, fails);
      work := Idle;
      KeepsValid(s, Forget, State(), store.dialable);
    }

    /** Handles every object listed, one after the other; `cuts` says where in the run
        the handling of each begins. */
    method DrainReceived(paths: seq<string>, stamp: string, now: int, ids: seq<Id>, fs: seq<Faults>)
        returns (hs: seq<Handled>, ghost ss: seq<Sys>, ghost steps: seq<Step>, ghost cuts: seq<nat>)
      requires Valid() && work.Idle? && |ids| == |fs| == |paths| && "" !in paths
      requires forall i :: 0 <= i < |ids| ==> ids[i] !in history.used
      requires forall i, j :: 0 <= i < j < |ids| ==> ids[i] != ids[j]
      modifies this`work, this`history, this`delivered, store, modem
      ensures Valid() && work.Idle?
      ensures IsRun(ss, steps, store.dialable) && ss[0] == old(State()) && ss[|steps|] == State()
      ensures Handles(ss, steps, cuts, paths, fs, hs)
    {
      hide Next, InboxSound, QueueSound, Outcome, Walks;
      hs, ss, steps, cuts := [], [State()], [], [0];
      for i := 0 to |paths|
        invariant Valid() && work.Idle?
        invariant IsRun(ss, steps, store.dialable) && ss[0] == old(State()) && ss[|steps|] == State()
        invariant forall k :: i <= k < |ids| ==> ids[k] !in history.used
        invariant Handles(ss, steps, cuts, paths[..i], fs[..i], hs)
      {
        ghost var ss', steps';
        var h;
        h, ss', steps' := ProcessOne(paths[i], stamp, now, ids[i], fs[i]);
        RunsCompose(ss, steps, ss', steps', store.dialable);
        HandlesOneMore(ss, steps, cuts, paths[..i], fs[..i], hs, ss', steps', paths[i], fs[i], h);
        assert paths[..i + 1] == paths[..i] + [paths[i]] && fs[..i + 1] == fs[..i] + [fs[i]];
        ss, steps := ss[..|steps|] + ss', steps + steps';
        hs, cuts := hs + [h], cuts + [|steps|];
      }
      assert paths[..|paths|] == paths && fs[..|paths|] == fs;
    }

    /** The handler of the forwarding setting. */
    method SetForwardTo(value: string, now: int, fails: bool)
      requires Valid() && flight.None?
      modifies this`setting, this`activated, store
      ensures Valid() && Next(old(State()), Setting(value, now, fails), State(), store.dialable)
      ensures !fails ==>
                && setting == Target(value, store.dialable)
                && Configured(old(store.Tables()), setting, now, store.Tables()) && activated == store.activatedAt
      ensures fails ==> setting == OFF && store.Tables() == old(store.Tables())
    {
      hide ValidDestination;
      ghost var s := State();
      var v := Target(value, store.dialable);
      var at := store.ConfigureForward(v, now, fails);
      if fails {
        setting := OFF;
      } else {
        activated, setting := at, v;
      }
      KeepsValid(s, Setting(value, now, fails), State(), store.dialable);
    }

    /** One turn of the forwarding loop: reserve, send, record the outcome. `stopped`
        says the service is shutting down by the time the job is reserved, `sent` whether
        the modem takes the message. */
    method ForwardOne(now: int, own: string, reserveFails: bool, stopped: bool, sent: bool, finishFails: bool)
        returns (job: Option<ForwardJob>, ghost ss: seq<Sys>, ghost steps: seq<Step>)
      requires Valid() && flight.None? && work.Idle?
      modifies this`flight, this`history, store
      ensures Valid() && flight.None?
      ensures IsRun(ss, steps, store.dialable) && ss[0] == old(State()) && ss[|steps|] == State()
      ensures setting == OFF || reserveFails ==> job.None? && State() == old(State())
      ensures setting != OFF && !reserveFails ==>
                && steps != [] && steps[0] == Reserve(now, own)
                && Reserved(old(store.Tables()), now, setting, own, store.dialable, ss[1].db, job)
                && store.jobs == (if job.Some? && !finishFails then Finished(ss[1].db.jobs, job.value.id, sent && !stopped) else ss[1].db.jobs)
                && store.budget == ss[1].db.budget
      ensures history.sends == old(history.sends) + if job.Some? && !stopped then [Handoff(job.value.id, job.value.to, setting)] else []
    {
      hide Next, InboxSound, QueueSound, Reserved, Finished, IsRun;
      ss, steps, job := [State()], [], None;
      NoRun(State(), store.dialable);
      if setting == OFF { return; }
      job := ReserveOne(now, own, reserveFails);
      ss, steps := RunGrows(ss, steps, Reserve(now, own), State(), store.dialable);
      if job.None? { return; }
      if !stopped {
        HandJobOver(sent);
        ss, steps := RunGrows(ss, steps, HandOver, State(), store.dialable);
      }
      RecordOutcome(finishFails);
      ss, steps := RunGrows(ss, steps, Finish, State(), store.dialable);
    }

    method ReserveOne(now: int, own: string, fails: bool) returns (job: Option<ForwardJob>)
      requires Valid() && flight.None? && setting != OFF
      modifies this`flight, this`history, store
      ensures Valid() && Next(old(State()), Reserve(now, own), State(), store.dialable)
      ensures if fails then State() == old(State()) && job.None?
              else Reserved(old(store.Tables()), now, setting, own, store.dialable, store.Tables(), job)
      ensures flight == if job.Some? then Some(Flight(job.value, false, false)) else None
      ensures history.sends == old(history.sends)
    {
      hide Reserved;
      ghost var s := State();
      job := store.ReserveForward(now, setting, own, fails);
      if job.Some? {
        flight := Some(Flight(job.value, false, false));
        history := history.(charges := history.charges + [Charge(job.value.id, DayOf(now), job.value.segments)]);
      }
      assert Next(s, Reserve(now, own), State(), store.dialable);
      KeepsValid(s, Reserve(now, own), State(), store.dialable);
    }

    /** Hands the job to the modem, which takes it or not. */
    method HandJobOver(sent: bool)
      requires Valid() && flight.Some? && !flight.value.handed && work.Idle?
      modifies this`flight, this`history
      ensures Valid() && Next(old(State()), HandOver, State(), store.dialable)
      ensures flight == Some(Flight(old(flight).value.job, true, sent))
      ensures history == old(history).(sends := old(history.sends) + [Handoff(flight.value.job.id, flight.value.job.to, setting)])
    {
      ghost var s := State();
      var f := flight.value;
      flight := Some(Flight(f.job, true, sent));
      history := history.(sends := history.sends + [Handoff(f.job.id, f.job.to, setting)]);
      KeepsValid(s, HandOver, State(), store.dialable);
    }

    method RecordOutcome(fails: bool)
      requires Valid() && flight.Some?
      modifies this`flight, store
      ensures Valid() && Next(old(State()), Finish, State(), store.dialable)
      ensures flight.None?
      ensures var f := old(flight).value;
              store.jobs == if fails then old(store.jobs) else Finished(old(store.jobs), f.job.id, f.handed && f.sent)
      ensures store.budget == old(store.budget)
    {
      ghost var s := State();
      store.FinishForward(flight.value.job.id, flight.value.handed && flight.value.sent, fails);
      flight := None;
      KeepsValid(s, Finish, State(), store.dialable);
    }

    /** The start of a process: nothing is remembered but what the tables hold. */
    method Start(fails: bool)
      requires Valid()
      modifies this, store
      ensures !fails ==> Valid() && Next(old(State()), Restart, State(), store.dialable)
      ensures fails ==> State() == old(State())
    {
      ghost var s := State();
      store.RecoverForward(fails);
      if !fails {
        delivered, setting, activated, flight, work := map[], OFF, 0, None, Idle;
        KeepsValid(s, Restart, State(), store.dialable);
      }
    }
  }

  /** The run handled `paths` one by one, each as its faults and the state it met demand. */
  ghost predicate Handles(ss: seq<Sys>, steps: seq<Step>, cuts: seq<nat>, paths: seq<string>, fs: seq<Faults>, hs: seq<Handled>) {
    && |ss| == |steps| + 1
    && |cuts| == |paths| + 1 && |fs| == |hs| == |paths| && cuts[0] == 0 && cuts[|paths|] == |steps|
    && forall i :: 0 <= i < |paths| ==> HandledBetween(ss, steps, cuts[i], cuts[i + 1], paths[i], fs[i], hs[i])
  }

  ghost predicate HandledBetween(ss: seq<Sys>, steps: seq<Step>, from: nat, to: nat, path: string, f: Faults, h: Handled) {
    && from <= to <= |steps| && from < |ss|
    && h == Outcome(ss[from].modem, ss[from].delivered, path, f)
    && Walks(h, path, steps[from..to])
  }

  lemma HandlesOneMore(ss: seq<Sys>, steps: seq<Step>, cuts: seq<nat>, paths: seq<string>, fs: seq<Faults>, hs: seq<Handled>,
                       ss': seq<Sys>, steps': seq<Step>, path: string, f: Faults, h: Handled)
    requires Handles(ss, steps, cuts, paths, fs, hs) && |ss'| == |steps'| + 1 && ss[|steps|] == ss'[0]
    requires h == Outcome(ss'[0].modem, ss'[0].delivered, path, f) && Walks(h, path, steps')
    ensures Handles(ss[..|steps|] + ss', steps + steps', cuts + [|steps + steps'|], paths + [path], fs + [f], hs + [h])
  {
    hide Outcome, Walks;
    var all, went := ss[..|steps|] + ss', steps + steps';
    forall i | 0 <= i < |paths| ensures HandledBetween(all, went, cuts[i], cuts[i + 1], paths[i], fs[i], hs[i]) {
      assert HandledBetween(ss, steps, cuts[i], cuts[i + 1], paths[i], fs[i], hs[i]);
      assert went[cuts[i]..cuts[i + 1]] == steps[cuts[i]..cuts[i + 1]];
      assert all[cuts[i]] == ss[cuts[i]];
    }
    assert went[|steps|..|went|] == steps' && all[|steps|] == ss'[0];
    assert HandledBetween(all, went, |steps|, |went|, path, f, h);
  }

  lemma KeepsValid(s: Sys, step: Step, s': Sys, dialable: string -> bool)
    requires Next(s, step, s', dialable) && InboxSound(s) && QueueSound(s)
    ensures InboxSound(s') && QueueSound(s')
  {
    hide Next;
    StepKeepsInbox(s, step, s', dialable);
    StepKeepsQueue(s, step, s', dialable);
  }

  lemma ReceiveIsStep(s: Sys, path: string, stamp: string, now: int, newId: Id, s': Sys, dialable: string -> bool)
    requires s.work.Idle? && path != "" && newId !in s.history.used && path in s.modem
    requires var o := s.modem[path];
             || (Disposable(o) && s' == s.(work := Discarding(path)))
             || (InboundText(o) && Remembered(s.delivered, path) == Named(o) && s' == s.(work := Deleting(path, Named(o), true)))
    ensures Next(s, Receive(path, stamp, now, newId), s', dialable)
  {
  }

  lemma DiscardIsStep(s: Sys, s': Sys, path: string, dialable: string -> bool)
    requires s.work == Discarding(path) && s' == s.(work := Idle, modem := s'.modem)
    requires s'.modem == s.modem || s'.modem == s.modem - {path}
    ensures Next(s, DeleteCopy, s', dialable)
  {
  }

  lemma DeliveredHasCopy(s: Sys, path: string, stamp: string, now: int, newId: Id, s': Sys, dialable: string -> bool)
    requires Next(s, Receive(path, stamp, now, newId), s', dialable) && path in s.modem
    requires s'.work == Deleting(path, Named(s.modem[path]), false)
    ensures HasCopy(s', path, Named(s.modem[path]))
  {
    hide Retained, Pruned, Admissible;
  }
}

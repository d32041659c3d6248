/** The APN manager: the transaction that moves the modem and the NetworkManager
    profile to a configuration, and the rollback that undoes it. */
module ApnManager {
  import opened Wrappers
  import opened ApnConfig
  import opened ApnBackend
  import opened ApnTransaction
  import opened ApnReconcile

  class Manager {
    const world: World
    var pending: Option<Pending>
    var lastICCID: string
    var lastPath: string
    var lastConfig: Config
    var lastCID: AttachContext
    var blockedICCID: string
    var blockedConfig: Config
    var retryInput: Input
    var attempts: nat
    var retryAt: nat

    function Remembers(): Memory
      reads this
    {
      Memory(pending, lastICCID, lastPath, lastConfig, lastCID, blockedICCID, blockedConfig, retryInput, attempts, retryAt)
    }

    constructor (world: World)
      ensures this.world == world
      ensures Remembers() == Memory(None, "", "", NoConfig, AttachContext(false, "", ""), "", NoConfig, Input("", "", NoConfig), 0, 0)
    {
      this.world := world;
      pending, lastICCID, lastPath, lastConfig := None, "", "", NoConfig;
      lastCID, blockedICCID, blockedConfig := AttachContext(false, "", ""), "", NoConfig;
      retryInput, attempts, retryAt := Input("", "", NoConfig), 0, 0;
    }

    /** Forgets the failures so far, and that the settings were ever applied to this modem path. */
    method ResetRetry()
      modifies this
      ensures Remembers() == Reset(old(Remembers())) == old(Remembers()).(attempts := 0, retryAt := 0, lastPath := "")
    {
      attempts, retryAt, lastPath := 0, 0, "";
    }

    /** One call of the forward part, after the calls `es` that followed `t0`. */
    method Next(x: Plan, any: bool, auto: bool, op: Op, ghost t0: seq<Event>, ghost es: seq<Event>)
        returns (ok: bool, reply: Reply, ghost es': seq<Event>, ghost e: Event)
      requires Forwarded(es, x, any, auto) && |es| < FORWARD_CALLS && op == ForwardOp(|es|, x, auto)
      requires |es| > 0 ==> Accepted(es[|es| - 1], |es| - 1, x, any)
      requires |es| < 9 ==> HeldAt(|es|, world.backend.link)
      requires world.trace == t0 + es
      modifies world
      ensures world.trace == t0 + es' && es' == es + [e]
      ensures e.op == op && e.ok == ok && e.reply == reply && (ok ==> Answers(op, reply))
      ensures Forwarded(es', x, any, auto)
      ensures |es'| <= 9 && (ok || op.SetMM?) ==> HeldAt(|es'|, world.backend.link)
      ensures world.steady && 3 <= |es| < 9 ==> Settles(op, ok, x, old(world.backend), world.backend)
      ensures world.steady && Holds(old(world.backend), x) ==> Holds(e.at, x)
      ensures old(world.operationDone) ==> world.operationDone
      ensures old(world.time) <= world.time
    {
      ok, reply, e := world.Call(op, Operation);
      es' := es + [e];
      ForwardExtends(es, e, x, any, auto);
    }

    /** Takes the link apart. NetworkManager's own retry is blocked first. */
    method Detach(x: Plan, any: bool, auto: bool, ghost t0: seq<Event>) returns (ok: bool, detached: bool, ghost es: seq<Event>)
      requires world.trace == t0
      modifies world
      ensures world.trace == t0 + es && Forwarded(es, x, any, auto)
      ensures 1 <= |es| <= 3 && detached == (|es| > 1)
      ensures ok ==> |es| == 3 && es[2].ok && HeldAt(3, world.backend.link)
      ensures !ok ==> Stopped(es, x, any, world.operationDone)
      ensures old(world.operationDone) ==> world.operationDone
      ensures old(world.time) <= world.time
    {
      detached, es := false, [];
      var reply;
      ghost var e;
      ok, reply, es, e := Next(x, any, auto, SetAutoconnect(false), t0, es);
      if !ok { return; }
      detached := true;
      ok, reply, es, e := Next(x, any, auto, Disconnect, t0, es);
      if !ok { return; }
      ok, reply, es, e := Next(x, any, auto, Deregister, t0, es);
    }

    /** Writes the profile, the attach settings, CID1 and the authentication. */
    method Write(x: Plan, any: bool, auto: bool, ghost t0: seq<Event>, ghost es0: seq<Event>)
        returns (ok: bool, ghost es: seq<Event>)
      requires Forwarded(es0, x, any, auto) && |es0| == 3 && Accepted(es0[2], 2, x, any)
      requires HeldAt(3, world.backend.link) && world.trace == t0 + es0
      modifies world
      ensures world.trace == t0 + es && Forwarded(es, x, any, auto)
      ensures 4 <= |es| <= 7
      ensures ok ==> |es| == 7 && es[6].ok && HeldAt(3, world.backend.link)
      ensures ok && world.steady ==> Holds(world.backend, x)
      ensures !ok ==> Stopped(es, x, any, world.operationDone)
      ensures old(world.operationDone) ==> world.operationDone
      ensures old(world.time) <= world.time
    {
      hide Forwarded;
      es := es0;
      var reply;
      ghost var e;
      ok, reply, es, e := Next(x, any, auto, SetGSM(x.nm), t0, es);
      if !ok { return; }
      ok, reply, es, e := Next(x, any, auto, SetMM(x.mm), t0, es);
      // Some modems refuse the attach settings; what counts is written next.
      if !ok && world.operationDone { return; }
      ok, reply, es, e := Next(x, any, auto, WriteCID(x.cid), t0, es);
      if !ok { return; }
      ok, reply, es, e := Next(x, any, auto, WriteAuth(x.auth), t0, es);
    }

    /** Reads CID1 and the profile back. */
    method ReadBack(x: Plan, any: bool, auto: bool, ghost t0: seq<Event>, ghost es0: seq<Event>)
        returns (ok: bool, ghost es: seq<Event>)
      requires Forwarded(es0, x, any, auto) && |es0| == 7 && Accepted(es0[6], 6, x, any)
      requires HeldAt(3, world.backend.link) && world.trace == t0 + es0
      requires world.steady ==> Holds(world.backend, x)
      modifies world
      ensures world.trace == t0 + es && Forwarded(es, x, any, auto)
      ensures 8 <= |es| <= 9
      ensures ok ==> |es| == 9 && Accepted(es[8], 8, x, any)
      ensures ok && world.steady ==> Holds(world.backend, x)
      ensures !ok ==> Stopped(es, x, any, world.operationDone)
      ensures old(world.operationDone) ==> world.operationDone
      ensures old(world.time) <= world.time
    {
      es := es0;
      var reply;
      ghost var e;
      ok, reply, es, e := Next(x, any, auto, ReadCID, t0, es);
      if !ok { return; }
      ok := reply.cid == x.cid;
      if !ok { return; }
      ok, reply, es, e := Next(x, any, auto, GetGSM, t0, es);
      if !ok { return; }
      ok := reply.cfg.EqualNM(x.nm);
    }

    /** Reattaches, checks CID1 once more and commits. */
    method Resume(x: Plan, any: bool, auto: bool, ghost t0: seq<Event>, ghost es0: seq<Event>)
        returns (ok: bool, actual: AttachContext, ghost es: seq<Event>)
      requires Forwarded(es0, x, any, auto) && |es0| == 9 && Accepted(es0[8], 8, x, any)
      requires world.trace == t0 + es0
      requires world.steady ==> Holds(world.backend, x)
      modifies world
      ensures world.trace == t0 + es && Forwarded(es, x, any, auto)
      ensures |es| >= 10
      ensures ok ==> Completed(es, x, any, auto, actual, world.steady)
      ensures !ok ==> Stopped(es, x, any, world.operationDone)
      ensures old(world.operationDone) ==> world.operationDone
      ensures old(world.time) <= world.time
    {
      hide Forwarded;
      actual, es := AttachContext(false, "", ""), es0;
      var reply;
      ghost var e;
      ok, reply, es, e := Next(x, any, auto, Reattach, t0, es);
      if !ok { return; }
      ok, reply, es, e := Next(x, any, auto, Connect, t0, es);
      if !ok { return; }
      // Connecting may have replaced what was written to CID1.
      ok, reply, es, e := Next(x, any, auto, ReadCID, t0, es);
      if !ok { return; }
      actual := reply.cid;
      ok := any || actual == x.cid;
      if !ok { return; }
      ok, reply, es, e := Next(x, any, auto, Commit(auto), t0, es);
    }

    /** The part of `apply` before its deferred rollback. */
    method Forward(x: Plan, any: bool, auto: bool)
        returns (ok: bool, changed: bool, detached: bool, actual: AttachContext, ghost es: seq<Event>)
      modifies world
      ensures world.trace == old(world.trace) + es && es != [] && Forwarded(es, x, any, auto)
      ensures changed == (|es| > 3) && detached == (|es| > 1)
      ensures ok ==> Completed(es, x, any, auto, actual, world.steady)
      ensures !ok ==> Stopped(es, x, any, world.operationDone)
      ensures old(world.operationDone) ==> world.operationDone
      ensures old(world.time) <= world.time
    {
      ghost var t0 := world.trace;
      changed, actual := false, AttachContext(false, "", "");
      ok, detached, es := Detach(x, any, auto, t0);
      if !ok { return; }
      changed := true;
      ok, es := Write(x, any, auto, t0, es);
      if !ok { return; }
      ok, es := ReadBack(x, any, auto, t0, es);
      if !ok { return; }
      ok, actual, es := Resume(x, any, auto, t0, es);
    }

    /** One call of a rollback, after the calls `es` that followed `t0`. */
    method Undo(x: Plan, auto: bool, op: Op, scope: Scope, ghost t0: seq<Event>, ghost es: seq<Event>)
        returns (ok: bool, reply: Reply, ghost es': seq<Event>, ghost e: Event)
      requires AllSound(es, x, auto) && MayUndo(op, x, auto)
      requires op.WritesModem() ==> world.backend.link.Detached()
      requires scope == ScopeBack(op)
      requires world.trace == t0 + es
      modifies world
      ensures world.trace == t0 + es' && es' == es + [e] && AllSound(es', x, auto)
      ensures e.op == op && e.ok == ok && e.reply == reply && (ok ==> Answers(op, reply) && e.took)
      ensures Drift(world.steady, old(world.backend), e.at)
      ensures world.backend == if e.took then After(op, e.at, world.backend.cid) else e.at
      ensures old(world.operationDone) ==> world.operationDone
      ensures old(world.time) <= world.time
    {
      ok, reply, e := world.Call(op, scope);
      es' := es + [e];
      assert Sound(e, x, auto);
    }

    /** Takes the link apart again: activation, or a half-effective commit, may have
        resumed autoconnect. */
    method Suspend(x: Plan, auto: bool, ghost t0: seq<Event>) returns (ok: bool, ghost es: seq<Event>)
      requires world.trace == t0
      modifies world
      ensures world.trace == t0 + es && AllSound(es, x, auto) && Suspending(es, x, auto, ok)
      ensures ok ==> world.backend.link.Detached()
      ensures old(world.operationDone) ==> world.operationDone
      ensures old(world.time) <= world.time
    {
      hide Sound, AllSound;
      assert AllSound([], x, auto) by { NothingIsSound(x, auto); }
      es := [];
      var reply;
      ghost var e;
      ok, reply, es, e := Undo(x, auto, SetAutoconnect(false), Cleanup, t0, es);
      if ok {
        ok, reply, es, e := Undo(x, auto, Disconnect, Cleanup, t0, es);
      }
      if ok {
        ok, reply, es, e := Undo(x, auto, Deregister, Cleanup, t0, es);
      }
    }

    /** A call made while everything is detached, which leaves it detached. */
    method UndoDetached(x: Plan, auto: bool, op: Op, ghost t0: seq<Event>, ghost es: seq<Event>)
        returns (ok: bool, reply: Reply, ghost es': seq<Event>, ghost e: Event)
      requires AllSound(es, x, auto) && MayUndo(op, x, auto)
      requires op.WritesCredentials() || op.Reads()
      requires world.backend.link.Detached()
      requires world.trace == t0 + es
      modifies world
      ensures world.trace == t0 + es' && es' == es + [e] && AllSound(es', x, auto)
      ensures e.op == op && e.ok == ok && e.reply == reply && (ok ==> Answers(op, reply))
      ensures world.backend.link.Detached()
      ensures world.steady ==> Settles(op, ok, x, old(world.backend), world.backend)
      ensures old(world.operationDone) ==> world.operationDone
      ensures old(world.time) <= world.time
    {
      ok, reply, es', e := Undo(x, auto, op, Cleanup, t0, es);
    }

    /** Puts back the modem's own settings. The attach settings are best effort here
        too; `clean` says whether everything else, the profile write before it
        included, went well. */
    method RestoreModem(x: Plan, auto: bool, clean0: bool, ghost t0: seq<Event>, ghost es0: seq<Event>)
        returns (clean: bool, ghost es: seq<Event>)
      requires world.trace == t0 + es0 && AllSound(es0, x, auto) && |es0| == 4
      requires world.backend.link.Detached()
      requires clean0 <==> Restoring(es0, 4, x, auto)
      modifies world
      ensures world.trace == t0 + es && es0 <= es && AllSound(es, x, auto) && |es| == 8
      ensures forall i :: 4 <= i < |es| ==> es[i].op == RestoreOp(i, x, auto)
      ensures clean ==> clean0
      ensures clean <==> Restoring(es, 8, x, auto)
      ensures world.backend.link.Detached()
      ensures world.steady ==> world.backend.nm == old(world.backend.nm)
      ensures world.steady && clean ==> world.backend.cid == x.cid && world.backend.auth == x.auth
      ensures old(world.operationDone) ==> world.operationDone
      ensures old(world.time) <= world.time
    {
      hide Restoring, Sound;
      var ok, reply;
      ghost var e5, e6, e7, e8;
      ok, reply, es, e5 := UndoDetached(x, auto, SetMM(x.mm), t0, es0);
      ok, reply, es, e6 := UndoDetached(x, auto, WriteAuth(x.auth), t0, es);
      clean := clean0 && ok;
      ok, reply, es, e7 := UndoDetached(x, auto, WriteCID(x.cid), t0, es);
      clean := clean && ok;
      ok, reply, es, e8 := UndoDetached(x, auto, ReadCID, t0, es);
      clean := clean && ok && reply.cid == x.cid;
      ModemRestored(es0, e5, e6, e7, e8, x, auto);
    }

    /** The `changed` half of a rollback: everything up to, not including, the commit. */
    method Restore(x: Plan, auto: bool, ghost t0: seq<Event>) returns (clean: bool, ghost es: seq<Event>)
      requires world.trace == t0
      modifies world
      ensures world.trace == t0 + es && AllSound(es, x, auto) && RestoreCalls(es, x, auto)
      ensures clean <==> Restoring(es, 9, x, auto)
      ensures clean && world.steady ==> Holds(world.backend, x)
      ensures clean ==> world.backend.link.Detached()
      ensures old(world.operationDone) ==> world.operationDone
      ensures old(world.time) <= world.time
    {
      hide Sound, Restoring, RestoreCalls, Suspending;
      var suspended;
      suspended, es := Suspend(x, auto, t0);
      ghost var apart := es;
      var ok, reply;
      ghost var write, read;
      ok, reply, es, write := Undo(x, auto, SetGSM(x.nm), Cleanup, t0, es);
      clean := suspended && ok;
      if suspended {
        SuspendedWrite(apart, write, x, auto);
        clean, es := RestoreModem(x, auto, ok, t0, es);
      }
      ghost var before := es;
      ok, reply, es, read := Undo(x, auto, GetGSM, Cleanup, t0, es);
      clean := clean && ok && reply.cfg.EqualNM(x.nm);
      if suspended {
        RestoreFinished(apart, write, before, read, x, auto);
      } else {
        RestoreStopped(apart, write, read, x, auto);
      }
    }

    /** Undoes a failed transaction. */
    method Rollback(x: Plan, state: ConnState, changed: bool, detached: bool) returns (ok: bool, ghost es: seq<Event>)
      modifies world
      ensures world.trace == old(world.trace) + es
      ensures RolledBack(es, x, state, changed, detached, world.steady, world.operationDone, ok)
      ensures old(world.operationDone) ==> world.operationDone
      ensures old(world.time) <= world.time
    {
      ghost var t0, restored := world.trace, [];
      if changed {
        ok, restored := Restore(x, state.autoconnect, t0);
        es := restored;
        if !ok {
          // Nothing is committed over a partial restore; the next attempt starts from the same snapshot.
          return;
        }
      }
      ok, es := Conclude(x, state, changed, detached, t0, restored);
    }

    /** The commit of a rollback, after the calls `restored`. */
    method CommitOriginal(x: Plan, state: ConnState, ghost t0: seq<Event>, ghost restored: seq<Event>) returns (ok: bool, ghost e: Event)
      requires world.trace == t0 + restored && AllSound(restored, x, state.autoconnect)
      modifies world
      ensures world.trace == t0 + (restored + [e])
      ensures e.op == Commit(state.autoconnect) && e.scope == Grace && e.ok == ok && Sound(e, x, state.autoconnect)
      ensures world.steady && Holds(old(world.backend), x) ==> Holds(e.at, x)
      ensures old(world.operationDone) ==> world.operationDone
      ensures old(world.time) <= world.time
    {
      var reply;
      ghost var es;
      ok, reply, es, e := Undo(x, state.autoconnect, Commit(state.autoconnect), Grace, t0, restored);
      assert es[|restored|] == e;
    }

    /** The commit of a rollback, and the reattach after it. */
    method Conclude(x: Plan, state: ConnState, ghost changed: bool, detached: bool, ghost t0: seq<Event>, ghost restored: seq<Event>)
        returns (ok: bool, ghost es: seq<Event>)
      requires world.trace == t0 + restored && AllSound(restored, x, state.autoconnect)
      requires if changed
               then Restoring(restored, 9, x, state.autoconnect) && (world.steady ==> Holds(world.backend, x))
               else restored == []
      modifies world
      ensures world.trace == t0 + es
      ensures RolledBack(es, x, state, changed, detached, world.steady, world.operationDone, ok)
      ensures old(world.operationDone) ==> world.operationDone
      ensures old(world.time) <= world.time
    {
      hide RolledBack, Restoring, Sound, Holds;
      ghost var commit, tail := *, [];
      ok, commit := CommitOriginal(x, state, t0, restored);
      // Whoever cancelled may be switching the modem off.
      if ok && detached && !world.operationDone {
        ok, tail := Resurrect(x, state, t0 + (restored + [commit]));
      }
      es := restored + [commit] + tail;
      RollbackShape(restored, commit, tail, x, state, changed, detached, world.steady, world.operationDone, ok);
    }

    /** Reattaches after a rollback, and reconnects what was connected before. */
    method Resurrect(x: Plan, state: ConnState, ghost t0: seq<Event>) returns (ok: bool, ghost es: seq<Event>)
      requires world.trace == t0
      modifies world
      ensures world.trace == t0 + es && Resurrected(es, x, state, ok)
      ensures old(world.operationDone) ==> world.operationDone
      ensures old(world.time) <= world.time
    {
      var reply;
      ghost var e;
      ok, reply, es, e := Undo(x, state.autoconnect, Reattach, Reconnect, t0, []);
      if ok && state.active {
        ok, reply, es, e := Undo(x, state.autoconnect, Connect, Reconnect, t0, es);
      }
    }

    /** The transaction proper, with `o` already recorded as pending. */
    method Attempt(o: Pending, cfg: Config, changed: bool, detached: bool)
        returns (ok: bool, ghost forward: seq<Event>, ghost rollback: seq<Event>)
      requires pending == Some(o)
      modifies this, world
      ensures world.trace == old(world.trace) + forward + rollback
      ensures Ran(o, cfg, changed, detached, pending, lastCID, forward, rollback, ok, world.steady, world.operationDone)
      ensures Remembers() == old(Remembers()).(pending := if ok then None else pending, lastCID := if ok then lastCID else old(lastCID))
      ensures old(world.time) <= world.time
    {
      var changed', detached', actual;
      ok, changed', detached', actual, forward := Forward(PlanFor(cfg), cfg.IsEmpty(), o.state.autoconnect);
      rollback := [];
      if ok {
        lastCID, pending := actual, None;
      } else {
        var undone;
        undone, rollback := Rollback(PlanBack(o.before), o.state, changed || changed', detached || detached');
        if undone {
          pending := None;
        }
      }
    }

    /** What the transaction is to restore if it fails, and whether a rollback has
        settings to put back even if the transaction changes none. */
    method Undertake(iccid: string, snap: Snapshot, clear: bool, seen: ConnState) returns (o: Pending, changed: bool)
      ensures o == Opened(pending, iccid, seen, snap, clear)
      ensures changed == (pending.Some? || clear)
    {
      var clear', before, state := clear, snap, seen;
      changed := pending.Some?;
      if pending.Some? {
        state := pending.value.state;
        if pending.value.iccid == iccid {
          before := pending.value.before;
        } else {
          clear' := true;
        }
      }
      if clear' {
        // Another SIM: what to go back to is a blank modem.
        before := BLANK;
        changed := true;
      }
      o := Pending(before, state, iccid);
    }

    /** One transaction: detach, write, verify, reattach and commit, or undo. */
    method Apply(in_: Input, cfg: Config, snap: Snapshot, clear: bool) returns (ok: bool, ghost es: seq<Event>)
      modifies this, world
      ensures world.trace == old(world.trace) + es && es != []
      ensures SomeTransaction(old(pending), in_.iccid, cfg, snap, clear, pending, lastCID, es, ok, world.steady, world.operationDone)
      ensures Remembers() == old(Remembers()).(pending := if ok then None else pending, lastCID := if ok then lastCID else old(lastCID))
      ensures old(world.time) <= es[0].time <= world.time
    {
      hide Ran, RolledBack, Forwarded, Completed;
      ghost var e, forward, rollback;
      var reply;
      ok, reply, e := world.Call(GetState, Operation);
      es := [e];
      if !ok {
        NoTransaction(pending, in_.iccid, cfg, snap, clear, lastCID, e, world.steady, world.operationDone);
        return;
      }
      var o, changed := Undertake(in_.iccid, snap, clear, reply.state);
      var retry := pending.Some?;
      if !ValidConfig(ParseMM(o.before.mm)) {
        ok := false;
        NoTransaction(pending, in_.iccid, cfg, snap, clear, lastCID, e, world.steady, world.operationDone);
        return;
      }
      pending := Some(o);
      ok, forward, rollback := Attempt(o, cfg, changed, retry);
      es := [e] + forward + rollback;
      TransactionShape(old(pending), in_.iccid, cfg, snap, clear, o, pending, lastCID, e, forward, rollback, ok, world.steady, world.operationDone);
    }

    /** The profile, the attach settings and CID1 as they are. */
    method ReadCurrent() returns (snap: Option<Snapshot>, ghost es: seq<Event>)
      modifies world
      ensures world.trace == old(world.trace) + es && Surveyed(es)
      ensures snap.Some? <==> SawEverything(es)
      ensures snap.None? ==> SurveyFailed(es)
      ensures snap.Some? ==> snap.value == Seen(es)
      ensures |es| == 3 ==> es[2].time <= world.time
      ensures old(world.operationDone) ==> world.operationDone
    {
      snap := None;
      ghost var e1, e2, e3;
      var ok, nm, mm, cid;
      ok, nm, e1 := world.Call(GetGSM, Operation);
      es := [e1];
      if !ok { return; }
      ok, mm, e2 := world.Call(GetMM, Operation);
      es := [e1, e2];
      if !ok { return; }
      ok, cid, e3 := world.Call(ReadCID, Operation);
      es := [e1, e2, e3];
      if !ok { return; }
      snap := Some(Snapshot(nm.cfg, mm.settings, cid.cid));
    }

    /** Remembers a success; settings that met a changed SIM stay blocked. */
    method RecordSuccess(in_: Input, cfg: Config, clear: bool)
      modifies this
      ensures Remembers() == Settled(old(Remembers()), in_, cfg, clear)
    {
      lastICCID, lastPath, lastConfig := in_.iccid, in_.path, cfg;
      attempts, retryAt := 0, 0;
      if clear {
        blockedICCID, blockedConfig := in_.iccid, in_.desired;
      }
    }

    /** Brings the modem and the profile to the desired configuration. `contended`
        says another operation holds the manager, `dead` that the caller's context
        is already cancelled. */
    method Reconcile(in_: Input, contended: bool, dead: bool) returns (out: Outcome, ghost es: seq<Event>)
      modifies this, world
      ensures world.trace == old(world.trace) + es
      ensures Reconciled(old(Remembers()), in_, contended, dead, Remembers(), out, es, world.time, world.steady, world.operationDone)
    {
      hide Pursued, ValidConfig;
      es := [];
      if in_.iccid == "" { return NoSIM, []; }
      if contended || dead || in_.path == "" || !ValidConfig(in_.desired) { return Error, []; }
      world.Begin(dead);
      if !SameRequest(in_, retryInput) {
        retryInput, attempts, retryAt := in_, 0, 0;
      }
      var clear := lastICCID != "" && lastICCID != in_.iccid;
      var cfg := in_.desired;
      if clear {
        cfg := NoConfig;
      } else if blockedICCID == in_.iccid {
        if blockedConfig.Equal(in_.desired) { return Unconfigured, []; }
        blockedICCID := "";
      }
      out, es := Pursue(in_, cfg, clear);
    }

    /** The part of `Reconcile` that talks to the backends. */
    method Pursue(in_: Input, cfg: Config, clear: bool) returns (out: Outcome, ghost es: seq<Event>)
      modifies this, world
      ensures world.trace == old(world.trace) + es
      ensures Pursued(old(Remembers()), in_, cfg, clear, Remembers(), out, es, world.time, world.steady, world.operationDone)
    {
      hide SomeTransaction, InSync, Surveyed;
      var snap;
      snap, es := ReadCurrent();
      if snap.None? { return Error, es; }
      if InSync(Remembers(), in_, cfg, snap.value) {
        lastCID := snap.value.cid;
        RecordSuccess(in_, cfg, clear);
        out := if clear then ICCIDChangedClear else if cfg.IsEmpty() then Unconfigured else InOrder;
        return;
      }
      if attempts >= MAX_APPLY_ATTEMPTS || world.time < retryAt { return Error, es; }
      var ok;
      ghost var txn;
      ok, txn := Apply(in_, cfg, snap.value, clear);
      ghost var survey := es;
      es := es + txn;
      assert es[3..] == txn && es[..3] == survey[..3];
      if ok {
        RecordSuccess(in_, cfg, clear);
        out := if clear then ICCIDChangedClear else Applied;
      } else {
        attempts := attempts + 1;
        retryAt := world.time + Backoff(attempts);
        out := Error;
      }
    }
  }
}

/** What one APN transaction may do: the script of its forward part, the script of
    its rollback, and the shape of the two together. */
module ApnTransaction {
  import opened ApnConfig
  import opened ApnBackend

  /** A CID1 or authentication write meets a modem that is fully detached. */
  predicate Disciplined(e: Event) {
    e.op.WritesModem() ==> e.at.link.Detached()
  }

  /** Nothing reattaches once the operation has been cancelled. */
  predicate RespectsCancel(e: Event) {
    (e.op.Reattach? || e.op.Connect?) && e.took ==> !e.cancelled
  }

  /** Whatever the event writes is the corresponding part of `x`. */
  predicate WritesPartOf(e: Event, x: Plan) {
    match e.op
    case SetGSM(c) => c == x.nm
    case SetMM(s) => s == x.mm
    case WriteCID(c) => c == x.cid
    case WriteAuth(a) => a == x.auth
    case _ => true
  }

  predicate CommitsOnly(e: Event, auto: bool) {
    e.op.Commit? ==> e.op.auto == auto
  }

  predicate Sound(e: Event, x: Plan, auto: bool) {
    Disciplined(e) && RespectsCancel(e) && WritesPartOf(e, x) && CommitsOnly(e, auto)
  }

  /** The context a call of a rollback runs under. */
  function ScopeBack(op: Op): Scope {
    match op
    case Commit(_) => Grace
    case Reattach => Reconnect
    case Connect => Reconnect
    case _ => Cleanup
  }

  /** The calls of a rollback to `x`. */
  ghost predicate AllSound(es: seq<Event>, x: Plan, auto: bool) {
    forall i :: 0 <= i < |es| ==> Sound(es[i], x, auto) && es[i].scope == ScopeBack(es[i].op)
  }

  lemma NothingIsSound(x: Plan, auto: bool)
    ensures AllSound([], x, auto)
  {
  }

  /** The i-th forward call went well: it succeeded (the settings write need not),
      and what it read back is what was written. */
  predicate Accepted(e: Event, i: nat, x: Plan, any: bool) {
    && (i != 4 ==> e.ok)
    && (i == 7 ==> e.reply == SawCID(x.cid))
    && (i == 8 ==> e.reply.SawGSM? && e.reply.cfg.EqualNM(x.nm))
    && (i == 11 ==> e.reply.SawCID? && (any || e.reply.cid == x.cid))
  }

  const FORWARD_CALLS: nat := 13
  const RESTORE_CALLS: nat := 10

  /** The i-th call of the forward part. */
  function ForwardOp(i: nat, x: Plan, auto: bool): Op
    requires i < FORWARD_CALLS
  {
    if i == 0 then SetAutoconnect(false)
    else if i == 1 then Disconnect
    else if i == 2 then Deregister
    else if i == 3 then SetGSM(x.nm)
    else if i == 4 then SetMM(x.mm)
    else if i == 5 then WriteCID(x.cid)
    else if i == 6 then WriteAuth(x.auth)
    else if i == 7 then ReadCID
    else if i == 8 then GetGSM
    else if i == 9 then Reattach
    else if i == 10 then Connect
    else if i == 11 then ReadCID
    else Commit(auto)
  }

  /** The i-th call of a complete restore, its commit included. */
  function RestoreOp(i: nat, x: Plan, auto: bool): Op
    requires i < RESTORE_CALLS
  {
    if i == 0 then SetAutoconnect(false)
    else if i == 1 then Disconnect
    else if i == 2 then Deregister
    else if i == 3 then SetGSM(x.nm)
    else if i == 4 then SetMM(x.mm)
    else if i == 5 then WriteAuth(x.auth)
    else if i == 6 then WriteCID(x.cid)
    else if i == 7 then ReadCID
    else if i == 8 then GetGSM
    else Commit(auto)
  }

  /** How far the first three calls of either script have taken the link apart. */
  predicate HeldAt(n: nat, l: Link) {
    (n >= 1 ==> !l.auto) && (n >= 2 ==> !l.active) && (n >= 3 ==> !l.registered)
  }

  predicate Answers(op: Op, r: Reply) {
    match op
    case GetState => r.SawState?
    case GetGSM => r.SawGSM?
    case GetMM => r.SawMM?
    case ReadCID => r.SawCID?
    case _ => true
  }

  /** The forward part got as far as `es`: every call but the last went well. */
  ghost predicate Forwarded(es: seq<Event>, x: Plan, any: bool, auto: bool) {
    && |es| <= FORWARD_CALLS
    && (forall i :: 0 <= i < |es| ==> es[i].op == ForwardOp(i, x, auto) && es[i].scope == Operation && Sound(es[i], x, auto))
    && (forall i :: 0 <= i < |es| - 1 ==> Accepted(es[i], i, x, any))
  }

  lemma ForwardExtends(es: seq<Event>, e: Event, x: Plan, any: bool, auto: bool)
    requires Forwarded(es, x, any, auto) && |es| < FORWARD_CALLS && e.op == ForwardOp(|es|, x, auto) && e.scope == Operation
    requires |es| > 0 ==> Accepted(es[|es| - 1], |es| - 1, x, any)
    requires Sound(e, x, auto)
    ensures Forwarded(es + [e], x, any, auto)
  {
  }

  /** Why a forward part ended early: its last call failed or read back something else;
      or the attach settings failed, which is tolerated unless the operation was cancelled. */
  ghost predicate Stopped(es: seq<Event>, x: Plan, any: bool, cancelled: bool) {
    && es != []
    && (|| !Accepted(es[|es| - 1], |es| - 1, x, any)
        || (|es| == 5 && !es[4].ok && cancelled))
  }

  /** The forward part ran to its end; `cid` is what CID1 read after activation. In a steady
      world the modem was reattached with the plan in place. */
  ghost predicate Completed(es: seq<Event>, x: Plan, any: bool, auto: bool, cid: AttachContext, steady: bool) {
    && Forwarded(es, x, any, auto)
    && |es| == FORWARD_CALLS
    && es[12].ok
    && es[11].reply == SawCID(cid)
    && (steady ==> Holds(es[9].at, x))
  }

  /** `op` is a call a rollback to `x` may make. */
  predicate MayUndo(op: Op, x: Plan, auto: bool) {
    match op
    case SetGSM(c) => c == x.nm
    case SetMM(s) => s == x.mm
    case WriteCID(c) => c == x.cid
    case WriteAuth(a) => a == x.auth
    case Commit(b) => b == auto
    case _ => true
  }

  /** What a detached call leaves behind in a steady world. */
  predicate Settles(op: Op, ok: bool, x: Plan, b: Backend, b': Backend) {
    && (!op.SetGSM? ==> b'.nm == b.nm)
    && (op.SetGSM? && ok ==> b'.nm.EqualNM(x.nm))
    && (!op.WriteCID? ==> b'.cid == b.cid)
    && (op.WriteCID? && ok ==> b'.cid == x.cid)
    && (!op.WriteAuth? ==> b'.auth == b.auth)
    && (op.WriteAuth? && ok ==> b'.auth == x.auth)
  }

  /** The first `n` calls of a restore, all well. */
  ghost predicate Restoring(es: seq<Event>, n: nat, x: Plan, auto: bool)
    requires n < RESTORE_CALLS
  {
    && |es| == n
    && (forall i :: 0 <= i < n ==> es[i].op == RestoreOp(i, x, auto) && (i != 4 ==> es[i].ok))
    && (n > 7 ==> es[7].reply == SawCID(x.cid))
    && (n > 8 ==> es[8].reply.SawGSM? && es[8].reply.cfg.EqualNM(x.nm))
  }

  /** The whole restore was carried out, and everything read back equal to the
      snapshot before the commit was issued. */
  ghost predicate Restored(es: seq<Event>, x: Plan, auto: bool) {
    && |es| >= RESTORE_CALLS
    && (forall i :: 0 <= i < RESTORE_CALLS ==> es[i].op == RestoreOp(i, x, auto))
    && (forall i :: 0 <= i < RESTORE_CALLS - 1 && i != 4 ==> es[i].ok)
    && es[7].reply == SawCID(x.cid)
    && es[8].reply.SawGSM? && es[8].reply.cfg.EqualNM(x.nm)
  }

  /** In a steady world the backend itself holds the plan when it is committed. */
  predicate Holds(b: Backend, x: Plan) {
    b.nm.EqualNM(x.nm) && b.cid == x.cid && b.auth == x.auth && b.link.Detached()
  }

  /** Taking the link apart, as far as it went. */
  ghost predicate Suspending(es: seq<Event>, x: Plan, auto: bool, ok: bool) {
    && 1 <= |es| <= 3
    && (forall i :: 0 <= i < |es| ==> es[i].op == RestoreOp(i, x, auto))
    && (forall i :: 0 <= i < |es| - 1 ==> es[i].ok)
    && ok == es[|es| - 1].ok && (ok ==> |es| == 3)
  }

  /** The calls of a restore without its commit: all of them once the link is apart, and
      otherwise only the profile, which needs no detached modem. */
  ghost predicate RestoreCalls(es: seq<Event>, x: Plan, auto: bool) {
    || (|es| == 9 && Suspending(es[..3], x, auto, true) && forall i :: 0 <= i < 9 ==> es[i].op == RestoreOp(i, x, auto))
    || (&& 3 <= |es| <= 5 && Suspending(es[..|es| - 2], x, auto, false)
        && es[|es| - 2].op == SetGSM(x.nm) && es[|es| - 1].op == GetGSM)
  }

  /** A rollback that could not restore everything: it made every call it could, and
      committed nothing. */
  ghost predicate GaveUp(es: seq<Event>, x: Plan, state: ConnState, changed: bool, ok: bool) {
    changed && !ok && RestoreCalls(es, x, state.autoconnect) && !Restoring(es, 9, x, state.autoconnect)
  }

  /** A rollback that got to its commit, call `c`: over a verified restore if something
      was changed, and otherwise at once. It reattaches what was detached, unless the
      operation has been cancelled by then. */
  ghost predicate Concluded(es: seq<Event>, c: nat, x: Plan, state: ConnState, changed: bool, detached: bool,
                            steady: bool, cancelled: bool, ok: bool)
  {
    && c < |es| && es[c].op == Commit(state.autoconnect)
    && (changed ==> Restored(es, x, state.autoconnect) && (steady ==> Holds(es[c].at, x)))
    && if |es| == c + 1 then ok == es[c].ok && (ok && detached ==> cancelled)
       else es[c].ok && detached && Resurrected(es[c + 1..], x, state, ok)
  }

  /** One rollback, every call of it. */
  ghost predicate RolledBack(es: seq<Event>, x: Plan, state: ConnState, changed: bool, detached: bool,
                             steady: bool, cancelled: bool, ok: bool)
  {
    && AllSound(es, x, state.autoconnect)
    && (|| GaveUp(es, x, state, changed, ok)
        || Concluded(es, if changed then 9 else 0, x, state, changed, detached, steady, cancelled, ok))
  }

  /** The reattach that ends a rollback, and the reconnect of what was connected. */
  ghost predicate Resurrected(es: seq<Event>, x: Plan, state: ConnState, ok: bool) {
    && AllSound(es, x, state.autoconnect)
    && 1 <= |es| <= 2 && es[0].op == Reattach
    && (|es| == 2 <==> es[0].ok && state.active)
    && (|es| == 2 ==> es[1].op == Connect)
    && ok == es[|es| - 1].ok
  }

  lemma RollbackShape(restored: seq<Event>, commit: Event, tail: seq<Event>, x: Plan, state: ConnState,
                      changed: bool, detached: bool, steady: bool, cancelled: bool, ok: bool)
    requires AllSound(restored, x, state.autoconnect) && Sound(commit, x, state.autoconnect)
    requires commit.op == Commit(state.autoconnect) && commit.scope == Grace
    requires if changed
             then Restoring(restored, 9, x, state.autoconnect) && (steady ==> Holds(commit.at, x))
             else restored == []
    requires if tail == [] then ok == commit.ok && (ok && detached ==> cancelled)
             else commit.ok && detached && Resurrected(tail, x, state, ok)
    ensures RolledBack(restored + [commit] + tail, x, state, changed, detached, steady, cancelled, ok)
  {
    var es, c := restored + [commit] + tail, |restored|;
    assert es[c] == commit && es[c + 1..] == tail;
    hide Sound, Holds;
    assert Concluded(es, c, x, state, changed, detached, steady, cancelled, ok);
  }

  lemma ModemRestored(es0: seq<Event>, e5: Event, e6: Event, e7: Event, e8: Event, x: Plan, auto: bool)
    requires |es0| == 4 && e5.op == SetMM(x.mm) && e6.op == WriteAuth(x.auth) && e7.op == WriteCID(x.cid) && e8.op == ReadCID
    ensures var es := es0 + [e5] + [e6] + [e7] + [e8];
            && (forall i :: 4 <= i < 8 ==> es[i].op == RestoreOp(i, x, auto))
            && (Restoring(es, 8, x, auto) <==> Restoring(es0, 4, x, auto) && e6.ok && e7.ok && e8.ok && e8.reply == SawCID(x.cid))
  {
    var es := es0 + [e5] + [e6] + [e7] + [e8];
    assert forall i :: 0 <= i < 4 ==> es[i] == es0[i];
    assert es[4] == e5 && es[5] == e6 && es[6] == e7 && es[7] == e8;
  }

  lemma RestoreStopped(apart: seq<Event>, write: Event, read: Event, x: Plan, auto: bool)
    requires Suspending(apart, x, auto, false) && write.op == SetGSM(x.nm) && read.op == GetGSM
    ensures var es := apart + [write] + [read]; RestoreCalls(es, x, auto) && !Restoring(es, 9, x, auto)
  {
    var es := apart + [write] + [read];
    assert es[..|es| - 2] == apart;
  }

  lemma SuspendedWrite(apart: seq<Event>, write: Event, x: Plan, auto: bool)
    requires Suspending(apart, x, auto, true) && write.op == SetGSM(x.nm)
    ensures |apart| == 3 && (Restoring(apart + [write], 4, x, auto) <==> write.ok)
  {
    var es := apart + [write];
    assert es[3] == write && forall i :: 0 <= i < 3 ==> es[i] == apart[i];
  }

  lemma RestoreFinished(apart: seq<Event>, write: Event, es: seq<Event>, read: Event, x: Plan, auto: bool)
    requires Suspending(apart, x, auto, true) && write.op == SetGSM(x.nm)
    requires apart + [write] <= es && |es| == 8 && forall i :: 4 <= i < 8 ==> es[i].op == RestoreOp(i, x, auto)
    requires read.op == GetGSM && (read.ok ==> read.reply.SawGSM?)
    ensures RestoreCalls(es + [read], x, auto)
    ensures Restoring(es + [read], 9, x, auto) <==> Restoring(es, 8, x, auto) && read.ok && read.reply.cfg.EqualNM(x.nm)
  {
    var all := es + [read];
    assert all[..3] == apart && all[3] == write && all[8] == read;
    assert forall i :: 0 <= i < 3 ==> all[i] == apart[i];
    assert forall i :: 3 <= i < 8 ==> all[i] == es[i];
  }
}

/** What the APN manager remembers between calls, and what one `Reconcile` may do. */
module ApnReconcile {
  import opened Wrappers
  import opened ApnConfig
  import opened ApnBackend
  import opened ApnTransaction

  const MAX_APPLY_ATTEMPTS: nat := 3
  const RETRY_DELAY: nat := 30

  datatype Outcome = NoSIM | Unconfigured | InOrder | Applied | ICCIDChangedClear | Error

  datatype Input = Input(iccid: string, path: string, desired: Config)

  /** The snapshot an unfinished transaction still has to restore. */
  datatype Pending = Pending(before: Snapshot, state: ConnState, iccid: string)

  datatype Memory = Memory(
    pending: Option<Pending>,
    lastICCID: string, lastPath: string, lastConfig: Config, lastCID: AttachContext,
    blockedICCID: string, blockedConfig: Config,
    retryInput: Input, attempts: nat, retryAt: nat)

  predicate SameRequest(a: Input, b: Input) {
    a.iccid == b.iccid && a.path == b.path && a.desired.Equal(b.desired)
  }

  /** The SIM differs from the one last configured. */
  predicate ClearsSIM(m: Memory, in_: Input) {
    m.lastICCID != "" && m.lastICCID != in_.iccid
  }

  /** A SIM that was cleared stays cleared until its settings change. */
  predicate Blocked(m: Memory, in_: Input) {
    !ClearsSIM(m, in_) && m.blockedICCID == in_.iccid && m.blockedConfig.Equal(in_.desired)
  }

  function Chosen(m: Memory, in_: Input): Config {
    if ClearsSIM(m, in_) then NoConfig else in_.desired
  }

  /** A changed request starts a fresh sequence of attempts. */
  function Retargeted(m: Memory, in_: Input): Memory {
    if SameRequest(in_, m.retryInput) then m else m.(retryInput := in_, attempts := 0, retryAt := 0)
  }

  function Unblocked(m: Memory, in_: Input): Memory {
    if !ClearsSIM(m, in_) && m.blockedICCID == in_.iccid then m.(blockedICCID := "") else m
  }

  function Admitted(m: Memory, in_: Input): Memory {
    Unblocked(Retargeted(m, in_), in_)
  }

  /** Nothing is left to do for `cfg`, given what was read. */
  predicate InSync(m: Memory, in_: Input, cfg: Config, seen: Snapshot) {
    var verified := m.lastICCID == in_.iccid && m.lastPath == in_.path && m.lastConfig.Equal(cfg);
    && m.attempts == 0 && m.pending.None?
    && seen.nm.EqualNM(cfg)
    && (seen.cid == DesiredContext(cfg)
        || (cfg.IsEmpty() && (seen.cid.apn == "" || (verified && seen.cid == m.lastCID))))
    && (ParseMM(seen.mm).Equal(cfg) || verified)
  }

  /** The memory after a success; a SIM change blocks its settings. */
  function Settled(m: Memory, in_: Input, cfg: Config, clear: bool): Memory {
    var m := m.(lastICCID := in_.iccid, lastPath := in_.path, lastConfig := cfg, attempts := 0, retryAt := 0);
    if clear then m.(blockedICCID := in_.iccid, blockedConfig := in_.desired) else m
  }

  /** The wait after the n-th failed attempt: it doubles each time. */
  function Backoff(n: nat): nat {
    if n <= 1 then RETRY_DELAY else 2 * Backoff(n - 1)
  }

  /** What a transaction undertakes to restore if it fails. A transaction that finds
      one pending inherits its snapshot and connection state; another SIM's snapshot
      is never inherited. */
  function Opened(p: Option<Pending>, iccid: string, seen: ConnState, snap: Snapshot, clear: bool): Pending {
    Pending(
      if clear || (p.Some? && p.value.iccid != iccid) then BLANK
      else if p.Some? then p.value.before
      else snap,
      if p.Some? then p.value.state else seen,
      iccid)
  }

  /** A transaction once it has opened `o`: its forward calls, and the rollback if
      they failed. */
  ghost predicate Ran(o: Pending, cfg: Config, changed: bool, detached: bool, p': Option<Pending>, cid: AttachContext,
                      forward: seq<Event>, rollback: seq<Event>, ok: bool, steady: bool, cancelled: bool)
  {
    && forward != [] && Forwarded(forward, PlanFor(cfg), cfg.IsEmpty(), o.state.autoconnect)
    && (ok ==> rollback == [] && p'.None? && Completed(forward, PlanFor(cfg), cfg.IsEmpty(), o.state.autoconnect, cid, steady))
    && (!ok ==>
          && Stopped(forward, PlanFor(cfg), cfg.IsEmpty(), cancelled)
          && (p'.None? || p' == Some(o))
          && RolledBack(rollback, PlanBack(o.before), o.state, changed || |forward| > 3, detached || |forward| > 1,
                        steady, cancelled, p'.None?))
  }

  /** One transaction: `es[0]` reads the connection state, `es[1..k]` is the forward
      part and `es[k..]` the rollback. */
  ghost predicate Transacted(p: Option<Pending>, iccid: string, cfg: Config, snap: Snapshot, clear: bool,
                             p': Option<Pending>, cid: AttachContext, es: seq<Event>, ok: bool, k: nat,
                             steady: bool, cancelled: bool)
  {
    && 1 <= k <= |es| && es[0].op == GetState && es[0].scope == Operation
    && if !es[0].ok || !es[0].reply.SawState? then |es| == 1 && !ok && p' == p
       else
         var o := Opened(p, iccid, es[0].reply.state, snap, clear);
         if !ValidConfig(ParseMM(o.before.mm)) then |es| == 1 && !ok && p' == p
         else Ran(o, cfg, p.Some? || clear, p.Some?, p', cid, es[1..k], es[k..], ok, steady, cancelled)
  }

  ghost predicate SomeTransaction(p: Option<Pending>, iccid: string, cfg: Config, snap: Snapshot, clear: bool,
                                  p': Option<Pending>, cid: AttachContext, es: seq<Event>, ok: bool,
                                  steady: bool, cancelled: bool)
  {
    exists k :: Transacted(p, iccid, cfg, snap, clear, p', cid, es, ok, k, steady, cancelled)
  }

  lemma TransactionShape(p: Option<Pending>, iccid: string, cfg: Config, snap: Snapshot, clear: bool, o: Pending,
                         p': Option<Pending>, cid: AttachContext, e: Event, forward: seq<Event>, rollback: seq<Event>,
                         ok: bool, steady: bool, cancelled: bool)
    requires e.op == GetState && e.scope == Operation && e.ok && e.reply.SawState?
    requires o == Opened(p, iccid, e.reply.state, snap, clear) && ValidConfig(ParseMM(o.before.mm))
    requires Ran(o, cfg, p.Some? || clear, p.Some?, p', cid, forward, rollback, ok, steady, cancelled)
    ensures SomeTransaction(p, iccid, cfg, snap, clear, p', cid, [e] + forward + rollback, ok, steady, cancelled)
  {
    var es, k := [e] + forward + rollback, 1 + |forward|;
    assert es[1..k] == forward && es[k..] == rollback;
    assert Transacted(p, iccid, cfg, snap, clear, p', cid, es, ok, k, steady, cancelled);
  }

  /** A transaction that could not read the connection state, or found settings it
      could not restore, touches nothing. */
  lemma NoTransaction(p: Option<Pending>, iccid: string, cfg: Config, snap: Snapshot, clear: bool, cid: AttachContext,
                      e: Event, steady: bool, cancelled: bool)
    requires e.op == GetState && e.scope == Operation
    requires e.ok && e.reply.SawState? ==> !ValidConfig(ParseMM(Opened(p, iccid, e.reply.state, snap, clear).before.mm))
    ensures SomeTransaction(p, iccid, cfg, snap, clear, p, cid, [e], false, steady, cancelled)
  {
    assert Transacted(p, iccid, cfg, snap, clear, p, cid, [e], false, 1, steady, cancelled);
  }

  /** The three reads every reconcile starts with, as far as they went. */
  ghost predicate Surveyed(es: seq<Event>) {
    && 1 <= |es| <= 3
    && es[0].op == GetGSM && (|es| > 1 ==> es[1].op == GetMM) && (|es| > 2 ==> es[2].op == ReadCID)
    && (forall i :: 0 <= i < |es| ==> es[i].scope == Operation)
    && forall i :: 0 <= i < |es| - 1 ==> es[i].ok
  }

  /** A survey stops only at a read that failed. */
  ghost predicate SurveyFailed(es: seq<Event>) {
    Surveyed(es) && !es[|es| - 1].ok
  }

  ghost predicate SawEverything(es: seq<Event>) {
    && |es| >= 3 && Surveyed(es[..3]) && es[2].ok
    && es[0].reply.SawGSM? && es[1].reply.SawMM? && es[2].reply.SawCID?
  }

  ghost function Seen(es: seq<Event>): Snapshot
    requires SawEverything(es)
  {
    Snapshot(es[0].reply.cfg, es[1].reply.settings, es[2].reply.cid)
  }

  /** A request that was admitted with memory `a`: survey, then nothing, or wait, or a
      transaction; ends at time `end` with memory `m'`. */
  ghost predicate Pursued(a: Memory, in_: Input, cfg: Config, clear: bool, m': Memory, out: Outcome,
                          es: seq<Event>, end: nat, steady: bool, cancelled: bool)
  {
    if !SawEverything(es) then out == Error && m' == a && SurveyFailed(es)
    else if InSync(a, in_, cfg, Seen(es)) then
      && |es| == 3
      && m' == Settled(a.(lastCID := Seen(es).cid), in_, cfg, clear)
      && out == (if clear then ICCIDChangedClear else if cfg.IsEmpty() then Unconfigured else InOrder)
    else if |es| == 3 then
      && out == Error && m' == a
      && (a.attempts >= MAX_APPLY_ATTEMPTS || es[2].time < a.retryAt)
    else
      && a.attempts < MAX_APPLY_ATTEMPTS && a.retryAt <= es[3].time <= end
      && SomeTransaction(a.pending, in_.iccid, cfg, Seen(es), clear, m'.pending, m'.lastCID, es[3..],
                         out != Error, steady, cancelled)
      && (if out != Error
          then m' == Settled(a.(pending := None, lastCID := m'.lastCID), in_, cfg, clear)
               && out == (if clear then ICCIDChangedClear else Applied)
          else m' == a.(pending := m'.pending, attempts := a.attempts + 1, retryAt := end + Backoff(a.attempts + 1)))
  }

  /** One `Reconcile`, every branch of it. */
  ghost predicate Reconciled(m: Memory, in_: Input, contended: bool, dead: bool, m': Memory, out: Outcome,
                             es: seq<Event>, end: nat, steady: bool, cancelled: bool)
  {
    if in_.iccid == "" then out == NoSIM && m' == m && es == []
    else if contended || dead || in_.path == "" || !ValidConfig(in_.desired) then out == Error && m' == m && es == []
    else if Blocked(m, in_) then out == Unconfigured && m' == Retargeted(m, in_) && es == []
    else Pursued(Admitted(m, in_), in_, Chosen(m, in_), ClearsSIM(m, in_), m', out, es, end, steady, cancelled)
  }

  /** `ResetRetry` after a modem recovery. */
  function Reset(m: Memory): Memory {
    m.(attempts := 0, retryAt := 0, lastPath := "")
  }
}

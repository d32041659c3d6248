/** What the APN manager guarantees: of one transaction, of one `Reconcile`, and over
    every run of reconciles, retry resets, failures and SIM changes. */
module ApnRuns {
  import opened Wrappers
  import opened ApnConfig
  import opened ApnBackend
  import opened ApnTransaction
  import opened ApnReconcile

  // ----- one transaction -----

  /** Every event of a transaction is sound for what it writes or for what it restores. */
  lemma TransactionEvents(p: Option<Pending>, iccid: string, cfg: Config, snap: Snapshot, clear: bool,
                          p': Option<Pending>, cid: AttachContext, es: seq<Event>, ok: bool, k: nat, steady: bool, cancelled: bool,
                          i: nat)
    requires Transacted(p, iccid, cfg, snap, clear, p', cid, es, ok, k, steady, cancelled) && i < |es|
    ensures i == 0 ==> es[0].op == GetState
    ensures i > 0 ==>
              && es[0].reply.SawState?
              && var o := Opened(p, iccid, es[0].reply.state, snap, clear);
                 if i < k then Sound(es[i], PlanFor(cfg), o.state.autoconnect)
                 else Sound(es[i], PlanBack(o.before), o.state.autoconnect)
  {
    if i > 0 {
      if i < k {
        assert es[i] == es[1..k][i - 1];
      } else {
        assert es[i] == es[k..][i - k];
      }
    }
  }

  /** The event `e` committed the state `o` undertook to restore, after either no
      credentials were written at all or everything had read back equal to the snapshot. */
  ghost predicate CleanCommit(es: seq<Event>, c: nat, o: Pending, steady: bool) {
    && c < |es| && es[c].op == Commit(o.state.autoconnect) && es[c].ok
    && ((forall i :: 0 <= i < |es| ==> !es[i].op.WritesCredentials())
        || (&& c >= 2
            && es[c - 2].op == ReadCID && es[c - 2].ok && es[c - 2].reply == SawCID(o.before.cid)
            && es[c - 1].op == GetGSM && es[c - 1].ok && es[c - 1].reply.SawGSM? && es[c - 1].reply.cfg.EqualNM(o.before.nm)
            && (steady ==> Holds(es[c].at, PlanBack(o.before)))))
  }

  lemma RestoreCommitsCleanly(es: seq<Event>, k: nat, o: Pending, detached: bool, steady: bool, cancelled: bool)
    requires k <= |es|
    requires RolledBack(es[k..], PlanBack(o.before), o.state, true, detached, steady, cancelled, true)
    ensures CleanCommit(es, k + 9, o, steady)
  {
    var r := es[k..];
    assert Restored(r, PlanBack(o.before), o.state.autoconnect);
    assert r[7] == es[k + 7] && r[8] == es[k + 8] && r[9] == es[k + 9];
    assert r[7].op == RestoreOp(7, PlanBack(o.before), o.state.autoconnect);
    assert r[8].op == RestoreOp(8, PlanBack(o.before), o.state.autoconnect);
    assert r[9].op == RestoreOp(9, PlanBack(o.before), o.state.autoconnect);
  }

  /** A transaction that got no further than detaching wrote nothing, and neither did its rollback. */
  lemma UntouchedCommitsCleanly(es: seq<Event>, k: nat, o: Pending, x: Plan, any: bool, detached: bool, steady: bool, cancelled: bool)
    requires 1 <= k <= 4 && k <= |es| && es[0].op == GetState
    requires Forwarded(es[1..k], x, any, o.state.autoconnect)
    requires RolledBack(es[k..], PlanBack(o.before), o.state, false, detached, steady, cancelled, true)
    ensures CleanCommit(es, k, o, steady)
  {
    var r := es[k..];
    assert r[0] == es[k];
    assert CommitsOnly(r[0], o.state.autoconnect);
    forall i | 0 <= i < |es| ensures !es[i].op.WritesCredentials() {
      if 0 < i < k {
        assert es[i] == es[1..k][i - 1];
      } else if k < i {
        assert es[i] == r[i - k];
      }
    }
  }

  /** A failed transaction is undone completely or stays pending: when nothing is
      pending afterwards, the original autoconnect policy was committed over either
      untouched credentials or a restore that was read back; otherwise the snapshot
      and the policy to restore are still remembered. */
  lemma FailureIsAllOrNothing(p: Option<Pending>, iccid: string, cfg: Config, snap: Snapshot, clear: bool,
                              p': Option<Pending>, cid: AttachContext, es: seq<Event>, k: nat, steady: bool, cancelled: bool)
    requires Transacted(p, iccid, cfg, snap, clear, p', cid, es, false, k, steady, cancelled)
    ensures if |es| == 1 then p' == p
            else
              && es[0].reply.SawState?
              && var o := Opened(p, iccid, es[0].reply.state, snap, clear);
                 if p'.Some? then p' == Some(o) else exists c :: CleanCommit(es, c, o, steady)
  {
    if |es| > 1 && p'.None? {
      var o := Opened(p, iccid, es[0].reply.state, snap, clear);
      hide RolledBack, Forwarded;
      if p.Some? || clear || k > 4 {
        RestoreCommitsCleanly(es, k, o, p.Some? || k > 2, steady, cancelled);
      } else {
        UntouchedCommitsCleanly(es, k, o, PlanFor(cfg), cfg.IsEmpty(), p.Some? || k > 2, steady, cancelled);
      }
    }
  }

  // ----- one reconcile -----

  /** One event in the manager's life: a `Reconcile` with what it did, or a `ResetRetry`. */
  datatype Step =
    | Did(in_: Input, contended: bool, dead: bool, out: Outcome, es: seq<Event>, end: nat, cancelled: bool)
    | WasReset

  ghost predicate Steps(m: Memory, s: Step, m': Memory, steady: bool) {
    match s
    case Did(in_, contended, dead, out, es, end, cancelled) => Reconciled(m, in_, contended, dead, m', out, es, end, steady, cancelled)
    case WasReset => m' == Reset(m)
  }

  function EventsOf(s: Step): seq<Event> {
    if s.Did? then s.es else []
  }

  /** The step ran a transaction, rather than only looking. */
  predicate Attempted(s: Step) {
    |EventsOf(s)| > 3
  }

  /** What the transaction of a step undertook to restore. */
  ghost function Undertook(m: Memory, s: Step): Pending
    requires s.Did? && SawEverything(s.es) && |s.es| > 3 && s.es[3].reply.SawState?
  {
    Opened(m.pending, s.in_.iccid, s.es[3].reply.state, Seen(s.es), ClearsSIM(m, s.in_))
  }

  /** The configurations and the policy a step may write: those of the request's own
      configuration, or of what its transaction undertook to restore. */
  ghost predicate WithinRemit(m: Memory, s: Step, e: Event) {
    || e.op.Reads()
    || (&& s.Did? && SawEverything(s.es) && |s.es| > 3 && s.es[3].reply.SawState?
        && var o := Undertook(m, s);
           || Sound(e, PlanFor(Chosen(m, s.in_)), o.state.autoconnect)
           || Sound(e, PlanBack(o.before), o.state.autoconnect))
  }

  /** The transaction inside a step that ran one. */
  lemma StepTransaction(m: Memory, s: Step, m': Memory, steady: bool) returns (k: nat)
    requires Steps(m, s, m', steady)
    ensures Attempted(s) ==>
              && SawEverything(s.es)
              && Transacted(m.pending, s.in_.iccid, Chosen(m, s.in_), Seen(s.es), ClearsSIM(m, s.in_), m'.pending, m'.lastCID,
                            s.es[3..], s.out != Error, k, steady, s.cancelled)
  {
    hide Transacted, InSync;
    k := 0;
    if !Attempted(s) { return; }
    var p, cfg, clear, ok := m.pending, Chosen(m, s.in_), ClearsSIM(m, s.in_), s.out != Error;
    assert SomeTransaction(p, s.in_.iccid, cfg, Seen(s.es), clear, m'.pending, m'.lastCID, s.es[3..], ok, steady, s.cancelled);
    k :| Transacted(p, s.in_.iccid, cfg, Seen(s.es), clear, m'.pending, m'.lastCID, s.es[3..], ok, k, steady, s.cancelled);
  }

  lemma SurveyOnlyReads(m: Memory, s: Step, m': Memory, steady: bool, i: nat)
    requires Steps(m, s, m', steady) && i < |EventsOf(s)| && i < 3
    ensures s.es[i].op.Reads()
  {
    hide SomeTransaction, InSync;
    assert SawEverything(s.es) ==> s.es[..3][i] == s.es[i];
  }

  lemma StepEvents(m: Memory, s: Step, m': Memory, steady: bool, i: nat)
    requires Steps(m, s, m', steady) && i < |EventsOf(s)|
    ensures WithinRemit(m, s, s.es[i])
    ensures !Attempted(s) ==> s.es[i].op.Reads()
  {
    hide Transacted, Reconciled, Sound;
    if i < 3 {
      SurveyOnlyReads(m, s, m', steady, i);
    } else {
      var k := StepTransaction(m, s, m', steady);
      var txn := s.es[3..];
      assert s.es[i] == txn[i - 3] && s.es[3] == txn[0];
      TransactionEvents(m.pending, s.in_.iccid, Chosen(m, s.in_), Seen(s.es), ClearsSIM(m, s.in_), m'.pending, m'.lastCID,
                        txn, s.out != Error, k, steady, s.cancelled, i - 3);
    }
  }

  /** The detached-write discipline and the respect for cancellation, for every call
      of every step whatever the backends answer. */
  lemma StepIsDisciplined(m: Memory, s: Step, m': Memory, steady: bool)
    requires Steps(m, s, m', steady)
    ensures forall i :: 0 <= i < |EventsOf(s)| ==> Disciplined(s.es[i]) && RespectsCancel(s.es[i])
  {
    forall i | 0 <= i < |EventsOf(s)| ensures Disciplined(s.es[i]) && RespectsCancel(s.es[i]) {
      StepEvents(m, s, m', steady, i);
    }
  }

  /** SIM-swap isolation. When the inserted SIM is not the one last configured, or not
      the one a pending rollback belongs to, everything written is blank or the new
      request's own configuration; and only blank if it is not the one last configured. */
  lemma SIMSwapIsolation(m: Memory, s: Step, m': Memory, steady: bool)
    requires Steps(m, s, m', steady) && s.Did?
    requires ClearsSIM(m, s.in_) || (m.pending.Some? && m.pending.value.iccid != s.in_.iccid)
    ensures forall i :: 0 <= i < |s.es| ==>
              || WritesPartOf(s.es[i], PlanFor(NoConfig))
              || (!ClearsSIM(m, s.in_) && WritesPartOf(s.es[i], PlanFor(s.in_.desired)))
  {
    BlankPlan();
    forall i | 0 <= i < |s.es|
      ensures || WritesPartOf(s.es[i], PlanFor(NoConfig))
              || (!ClearsSIM(m, s.in_) && WritesPartOf(s.es[i], PlanFor(s.in_.desired)))
    {
      StepEvents(m, s, m', steady, i);
    }
  }

  // ----- runs -----

  ghost predicate IsRun(ms: seq<Memory>, ss: seq<Step>, steady: bool) {
    && |ms| == |ss| + 1
    && forall i :: 0 <= i < |ss| ==> Steps(ms[i], ss[i], ms[i + 1], steady)
  }

  /** Over every run: writes meet a detached modem, and nothing reattaches after cancellation. */
  lemma RunIsDisciplined(ms: seq<Memory>, ss: seq<Step>, steady: bool)
    requires IsRun(ms, ss, steady)
    ensures forall i, j :: 0 <= i < |ss| && 0 <= j < |EventsOf(ss[i])| ==>
              Disciplined(EventsOf(ss[i])[j]) && RespectsCancel(EventsOf(ss[i])[j])
  {
    hide Steps;
    forall i | 0 <= i < |ss|
      ensures forall j :: 0 <= j < |EventsOf(ss[i])| ==> Disciplined(EventsOf(ss[i])[j]) && RespectsCancel(EventsOf(ss[i])[j])
    {
      StepIsDisciplined(ms[i], ss[i], ms[i + 1], steady);
    }
  }

  /** Some call of the step committed `auto`, and reported success. */
  ghost predicate CommittedIn(s: Step, auto: bool) {
    exists j :: 0 <= j < |EventsOf(s)| && EventsOf(s)[j].op == Commit(auto) && EventsOf(s)[j].ok
  }

  ghost predicate OnlyCommits(s: Step, auto: bool) {
    forall j :: 0 <= j < |EventsOf(s)| ==> CommitsOnly(EventsOf(s)[j], auto)
  }

  /** What a step may do to a pending rollback: keep its state, and its snapshot or a
      blank one; commit only the pending policy; and drop it only after that commit. */
  ghost predicate ChainKept(p: Pending, s: Step, p': Option<Pending>) {
    && OnlyCommits(s, p.state.autoconnect)
    && match p'
       case Some(q) => q.state == p.state && (q.before == p.before || q.before == BLANK)
       case None => CommittedIn(s, p.state.autoconnect)
  }

  lemma TransactionEndsInCommit(p: Option<Pending>, iccid: string, cfg: Config, snap: Snapshot, clear: bool,
                                p': Option<Pending>, cid: AttachContext, es: seq<Event>, ok: bool, k: nat,
                                steady: bool, cancelled: bool) returns (c: nat)
    requires Transacted(p, iccid, cfg, snap, clear, p', cid, es, ok, k, steady, cancelled)
    requires p'.None? && (ok || |es| > 1)
    ensures c < |es| && es[0].reply.SawState? && es[c].ok
    ensures es[c].op == Commit(Opened(p, iccid, es[0].reply.state, snap, clear).state.autoconnect)
  {
    if ok {
      c := 13;
      assert es[1..k][12] == es[13];
    } else {
      FailureIsAllOrNothing(p, iccid, cfg, snap, clear, p', cid, es, k, steady, cancelled);
      var o := Opened(p, iccid, es[0].reply.state, snap, clear);
      c :| CleanCommit(es, c, o, steady);
    }
  }

  lemma StepKeepsChain(m: Memory, s: Step, m': Memory, steady: bool)
    requires Steps(m, s, m', steady) && m.pending.Some?
    ensures ChainKept(m.pending.value, s, m'.pending)
  {
    hide Steps, WithinRemit;
    forall j | 0 <= j < |EventsOf(s)| ensures CommitsOnly(EventsOf(s)[j], m.pending.value.state.autoconnect) {
      StepCommitsPending(m, s, m', steady, j);
    }
    if Attempted(s) {
      StepPending(m, s, m', steady);
    } else {
      LookingKeepsPending(m, s, m', steady);
    }
  }

  lemma StepCommitsPending(m: Memory, s: Step, m': Memory, steady: bool, j: nat)
    requires Steps(m, s, m', steady) && m.pending.Some? && j < |EventsOf(s)|
    ensures CommitsOnly(s.es[j], m.pending.value.state.autoconnect)
  {
    hide Steps;
    StepEvents(m, s, m', steady, j);
  }

  lemma LookingKeepsPending(m: Memory, s: Step, m': Memory, steady: bool)
    requires Steps(m, s, m', steady) && !Attempted(s)
    ensures m'.pending == m.pending
  {
    hide SomeTransaction, InSync;
  }

  /** What a transaction leaves pending, and that it commits before leaving nothing. */
  lemma StepPending(m: Memory, s: Step, m': Memory, steady: bool)
    requires Steps(m, s, m', steady)
    ensures Attempted(s) && m'.pending.Some? ==>
              m'.pending == m.pending || (s.es[3].reply.SawState? && SawEverything(s.es) && m'.pending == Some(Undertook(m, s)))
    ensures Attempted(s) && m'.pending.None? && m.pending.Some? ==> CommittedIn(s, m.pending.value.state.autoconnect)
  {
    hide Steps, Forwarded, RolledBack, Completed;
    if !Attempted(s) { return; }
    var k := StepTransaction(m, s, m', steady);
    var txn := s.es[3..];
    assert txn[0] == s.es[3];
    if m'.pending.None? && m.pending.Some? {
      var c := TransactionEndsInCommit(m.pending, s.in_.iccid, Chosen(m, s.in_), Seen(s.es), ClearsSIM(m, s.in_), m'.pending,
                                       m'.lastCID, txn, s.out != Error, k, steady, s.cancelled);
      assert txn[c] == EventsOf(s)[3 + c];
    }
  }

  /** The pending chain. While a rollback stays pending from `i` to `j`, whatever
      fails, is retried or changes SIM in between, its connection state never changes
      and its snapshot stays the first one or becomes blank for good; every commit on
      the way carries the first state's autoconnect policy, and the chain can only
      end in a successful one. */
  lemma {:induction false} PendingChain(ms: seq<Memory>, ss: seq<Step>, steady: bool, i: nat, j: nat)
    requires IsRun(ms, ss, steady) && i <= j < |ms|
    requires forall k :: i <= k <= j ==> ms[k].pending.Some?
    ensures ms[j].pending.value.state == ms[i].pending.value.state
    ensures ms[j].pending.value.before == ms[i].pending.value.before || ms[j].pending.value.before == BLANK
    ensures forall k :: i <= k <= j && k < |ss| ==> OnlyCommits(ss[k], ms[i].pending.value.state.autoconnect)
    ensures j < |ss| && ms[j + 1].pending.None? ==> CommittedIn(ss[j], ms[i].pending.value.state.autoconnect)
    decreases j
  {
    hide Steps, OnlyCommits, CommittedIn;
    if j < |ss| {
      assert Steps(ms[j], ss[j], ms[j + 1], steady);
      StepKeepsChain(ms[j], ss[j], ms[j + 1], steady);
    }
    if i < j {
      PendingChain(ms, ss, steady, i, j - 1);
      assert Steps(ms[j - 1], ss[j - 1], ms[j], steady);
      StepKeepsChain(ms[j - 1], ss[j - 1], ms[j], steady);
    }
  }

  /** A chain opens with the state and the snapshot the opening transaction itself
      read, or with a blank snapshot for a changed SIM. */
  lemma ChainOpens(m: Memory, s: Step, m': Memory, steady: bool)
    requires Steps(m, s, m', steady)
    ensures m.pending.None? && m'.pending.Some? ==>
              && s.Did? && |s.es| > 3 && SawEverything(s.es) && s.es[3].op == GetState
              && s.es[3].reply == SawState(m'.pending.value.state)
              && m'.pending.value.before == if ClearsSIM(m, s.in_) then BLANK else Seen(s.es)
  {
    if m.pending.Some? || m'.pending.None? { return; }
    if Attempted(s) {
      StepEvents(m, s, m', steady, 3);
      StepPending(m, s, m', steady);
      var k := StepTransaction(m, s, m', steady);
      assert s.es[3..][0] == s.es[3];
    } else {
      LookingKeepsPending(m, s, m', steady);
    }
  }
}

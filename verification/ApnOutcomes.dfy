/** What the answers of a reconcile mean, in the fields of the request, of the memory and
    of what was read: what a success wrote, what a rollback put back, when nothing was
    done, and when a transaction was refused. */
module ApnOutcomes {
  import opened Wrappers
  import opened ApnConfig
  import opened ApnBackend
  import opened ApnTransaction
  import opened ApnReconcile
  import opened ApnRuns

  /** The inserted SIM is not the one last configured. */
  predicate Swapped(m: Memory, in_: Input) {
    m.lastICCID != "" && m.lastICCID != in_.iccid
  }

  /** What is to be configured: what is asked for, or nothing after a SIM swap. */
  function Asked(m: Memory, in_: Input): Config {
    if Swapped(m, in_) then Config("", "", "", "") else in_.desired
  }

  predicate SameAuth(a: string, b: string) {
    a == b || (a in {"", "none"} && b in {"", "none"})
  }

  predicate SameSettings(a: Config, b: Config) {
    a.apn == b.apn && a.username == b.username && a.password == b.password && SameAuth(a.auth, b.auth)
  }

  // ----- what a success wrote -----

  /** CID1 carries the access point, and for none both kinds of address. */
  predicate IsContext(cid: AttachContext, apn: string) {
    cid == AttachContext(true, if apn == "" then "IPV4V6" else "IP", apn)
  }

  /** The modem's credentials: none without a user and a password, or without a method. */
  predicate IsAuth(a: Auth, chap: bool, pap: bool, username: string, password: string) {
    a == if (chap || pap) && (username != "" || password != "") then Credentials(!pap, username, password) else NoAuth
  }

  predicate IsSettings(mm: MMSettings, c: Config) {
    mm == MMSettings(Some(c.apn), Some(c.username), Some(c.password), Some(if c.auth == "pap" then 2 else if c.auth == "chap" then 4 else 1))
  }

  predicate IsNothing(c: Config) {
    c.apn == "" && c.username == "" && c.password == "" && c.auth in {"", "none"}
  }

  /** The thirteen calls of a successful forward part that puts `c` in place. */
  ghost predicate PutInPlace(es: seq<Event>, c: Config, auto: bool, cid: AttachContext) {
    && |es| == 13 && (forall i :: 0 <= i < 13 && i != 4 ==> es[i].ok)
    && TakenApart(es) && WrittenOut(es, c) && ReadBackEqual(es, c) && Resumed(es, c, auto, cid)
  }

  ghost predicate TakenApart(es: seq<Event>)
    requires |es| == 13
  {
    es[0].op == SetAutoconnect(false) && es[1].op == Disconnect && es[2].op == Deregister
  }

  ghost predicate WrittenOut(es: seq<Event>, c: Config)
    requires |es| == 13
  {
    && es[3].op.SetGSM? && es[3].op.cfg == c
    && es[4].op.SetMM? && IsSettings(es[4].op.settings, c)
    && es[5].op.WriteCID? && IsContext(es[5].op.cid, c.apn)
    && es[6].op.WriteAuth? && IsAuth(es[6].op.auth, c.auth == "chap", c.auth == "pap", c.username, c.password)
  }

  ghost predicate ReadBackEqual(es: seq<Event>, c: Config)
    requires |es| == 13
  {
    && es[7].op == ReadCID && es[7].reply.SawCID? && IsContext(es[7].reply.cid, c.apn)
    && es[8].op == GetGSM && es[8].reply.SawGSM? && ReadsAs(es[8].reply.cfg, c)
  }

  ghost predicate Resumed(es: seq<Event>, c: Config, auto: bool, cid: AttachContext)
    requires |es| == 13
  {
    && es[9].op == Reattach && es[10].op == Connect
    && es[11].op == ReadCID && es[11].reply == SawCID(cid)
    && (IsContext(cid, c.apn) || IsNothing(c))
    && es[12].op == Commit(auto)
  }

  predicate ReadsAs(seen: Config, c: Config) {
    seen.apn == c.apn && seen.username == c.username && seen.password == c.password
  }

  /** The backend as the modem is reattached. */
  predicate InPlace(b: Backend, c: Config) {
    && ReadsAs(b.nm, c) && IsContext(b.cid, c.apn)
    && IsAuth(b.auth, c.auth == "chap", c.auth == "pap", c.username, c.password)
    && !b.link.auto && !b.link.active && !b.link.registered
  }

  lemma CompletedPutsInPlace(es: seq<Event>, c: Config, auto: bool, cid: AttachContext, steady: bool)
    requires Completed(es, PlanFor(c), c.IsEmpty(), auto, cid, steady)
    ensures PutInPlace(es, c, auto, cid)
    ensures steady ==> InPlace(es[9].at, c)
  {
    hide Completed, PutInPlace, InPlace, PlanFor;
    CallsAre(es, PlanFor(c), c.IsEmpty(), auto, cid, steady);
    CallsPutInPlace(es, PlanFor(c), c, auto, cid);
    if steady {
      HeldIsInPlace(es[9].at, c);
    }
  }

  lemma HeldIsInPlace(b: Backend, c: Config)
    requires Holds(b, PlanFor(c))
    ensures InPlace(b, c)
  {
    PlanIs(c);
    hide PlanFor, IsContext, IsAuth;
  }

  lemma CallsPutInPlace(es: seq<Event>, x: Plan, c: Config, auto: bool, cid: AttachContext)
    requires x == PlanFor(c) && |es| == 13 && forall i :: 0 <= i < 13 && i != 4 ==> es[i].ok
    requires es[0].op == SetAutoconnect(false) && es[1].op == Disconnect && es[2].op == Deregister
    requires es[3].op == SetGSM(x.nm) && es[4].op == SetMM(x.mm) && es[5].op == WriteCID(x.cid) && es[6].op == WriteAuth(x.auth)
    requires es[7].op == ReadCID && es[8].op == GetGSM && es[9].op == Reattach && es[10].op == Connect
    requires es[11].op == ReadCID && es[12].op == Commit(auto)
    requires es[7].reply == SawCID(x.cid) && es[8].reply.SawGSM? && es[8].reply.cfg.EqualNM(x.nm)
    requires es[11].reply == SawCID(cid) && (c.IsEmpty() || cid == x.cid)
    ensures PutInPlace(es, c, auto, cid)
  {
    PlanIs(c);
    hide PlanFor, IsSettings, IsContext, IsAuth, IsNothing;
  }

  lemma PlanIs(c: Config)
    ensures var x := PlanFor(c);
            && x.nm == c && IsSettings(x.mm, c) && IsContext(x.cid, c.apn)
            && IsAuth(x.auth, c.auth == "chap", c.auth == "pap", c.username, c.password)
    ensures c.IsEmpty() <==> IsNothing(c)
  {
  }

  lemma CallsAre(es: seq<Event>, x: Plan, any: bool, auto: bool, cid: AttachContext, steady: bool)
    requires Completed(es, x, any, auto, cid, steady)
    ensures |es| == 13 && (forall i :: 0 <= i < 13 && i != 4 ==> es[i].ok)
    ensures es[0].op == SetAutoconnect(false) && es[1].op == Disconnect && es[2].op == Deregister
    ensures es[3].op == SetGSM(x.nm) && es[4].op == SetMM(x.mm) && es[5].op == WriteCID(x.cid) && es[6].op == WriteAuth(x.auth)
    ensures es[7].op == ReadCID && es[8].op == GetGSM && es[9].op == Reattach && es[10].op == Connect
    ensures es[11].op == ReadCID && es[12].op == Commit(auto)
    ensures es[7].reply == SawCID(x.cid) && es[8].reply.SawGSM? && es[8].reply.cfg.EqualNM(x.nm)
    ensures es[11].reply == SawCID(cid) && (any || cid == x.cid)
    ensures steady ==> Holds(es[9].at, x)
  {
    hide Sound, Holds, ForwardOp, Accepted;
    forall i | 0 <= i < 13 ensures es[i].op == ForwardOp(i, x, auto) && (i < 12 ==> Accepted(es[i], i, x, any)) {
    }
    hide Forwarded;
    CallsWere(es, x, auto);
    RepliesWere(es, x, any);
  }

  lemma RepliesWere(es: seq<Event>, x: Plan, any: bool)
    requires |es| == 13 && es[12].ok
    requires forall i :: 0 <= i < 12 ==> Accepted(es[i], i, x, any)
    ensures forall i :: 0 <= i < 13 && i != 4 ==> es[i].ok
    ensures es[7].reply == SawCID(x.cid) && es[8].reply.SawGSM? && es[8].reply.cfg.EqualNM(x.nm)
    ensures es[11].reply.SawCID? && (any || es[11].reply.cid == x.cid)
  {
    assert Accepted(es[7], 7, x, any) && Accepted(es[8], 8, x, any) && Accepted(es[11], 11, x, any);
  }

  lemma CallsWere(es: seq<Event>, x: Plan, auto: bool)
    requires |es| == 13 && forall i :: 0 <= i < 13 ==> es[i].op == ForwardOp(i, x, auto)
    ensures es[0].op == SetAutoconnect(false) && es[1].op == Disconnect && es[2].op == Deregister
    ensures es[3].op == SetGSM(x.nm) && es[4].op == SetMM(x.mm) && es[5].op == WriteCID(x.cid) && es[6].op == WriteAuth(x.auth)
    ensures es[7].op == ReadCID && es[8].op == GetGSM && es[9].op == Reattach && es[10].op == Connect
    ensures es[11].op == ReadCID && es[12].op == Commit(auto)
  {
  }

  lemma SuccessCompletes(m: Memory, s: Step, m': Memory, steady: bool)
    requires Steps(m, s, m', steady)
    ensures Attempted(s) && s.out != Error ==> SawEverything(s.es) && Succeeded(m, s, m', steady)
  {
    hide Completed, RolledBack, Forwarded, Stopped, ValidConfig, PlanFor;
    if !Attempted(s) { return; }
    var k := StepTransaction(m, s, m', steady);
    hide Steps, SawEverything;
    if s.out != Error {
      var txn := s.es[3..];
      assert txn[1..k] == s.es[4..] && txn[0] == s.es[3];
    }
  }

  ghost predicate Succeeded(m: Memory, s: Step, m': Memory, steady: bool)
    requires s.Did? && SawEverything(s.es) && |s.es| > 3
  {
    && s.es[3].op == GetState && s.es[3].ok && s.es[3].reply.SawState? && m'.pending.None?
    && Completed(s.es[4..], PlanFor(Chosen(m, s.in_)), Chosen(m, s.in_).IsEmpty(),
                 (if m.pending.Some? then m.pending.value.state else s.es[3].reply.state).autoconnect, m'.lastCID, steady)
  }

  /** What success means. A reconcile that ran a transaction and answered Applied or
      ICCIDChangedClear made exactly these calls after its survey, all well: it read the state,
      took the link apart, wrote the profile, the attach settings (which may fail), CID1 and the
      credentials, read CID1 and the profile back equal, reattached, connected, read CID1 again
      and committed the autoconnect policy that was there before the first attempt. */
  lemma AppliedWrites(m: Memory, s: Step, m': Memory, steady: bool)
    requires Steps(m, s, m', steady)
    ensures Attempted(s) && s.out != Error ==>
              && |s.es| == 17 && s.es[3].op == GetState && s.es[3].reply.SawState?
              && PutInPlace(s.es[4..], Asked(m, s.in_),
                            if m.pending.Some? then m.pending.value.state.autoconnect else s.es[3].reply.state.autoconnect, m'.lastCID)
              && (steady ==> InPlace(s.es[13].at, Asked(m, s.in_)))
              && s.out == (if Swapped(m, s.in_) then ICCIDChangedClear else Applied)
  {
    if Attempted(s) && s.out != Error {
      SuccessCompletes(m, s, m', steady);
      AnsweredFor(m, s, m', steady);
      hide Steps, Completed, PutInPlace, InPlace;
      var c := Chosen(m, s.in_);
      var auto := (if m.pending.Some? then m.pending.value.state else s.es[3].reply.state).autoconnect;
      CompletedPutsInPlace(s.es[4..], c, auto, m'.lastCID, steady);
      assert |s.es[4..]| == 13 by { CompletedLength(s.es[4..], c, auto, m'.lastCID, steady); }
      assert s.es[4..][9] == s.es[13];
    }
  }

  lemma CompletedLength(es: seq<Event>, c: Config, auto: bool, cid: AttachContext, steady: bool)
    requires Completed(es, PlanFor(c), c.IsEmpty(), auto, cid, steady)
    ensures |es| == 13
  {
  }

  lemma AnsweredFor(m: Memory, s: Step, m': Memory, steady: bool)
    requires Steps(m, s, m', steady)
    ensures Attempted(s) && s.out != Error ==> s.out == if Swapped(m, s.in_) then ICCIDChangedClear else Applied
    ensures s.Did? ==> Chosen(m, s.in_) == Asked(m, s.in_)
  {
    hide SomeTransaction, InSync, SawEverything, ValidConfig;
  }

  // ----- what a rollback put back -----

  /** What a transaction goes back to: what it surveyed, or what an unfinished one of the
      same SIM did; and for another SIM a modem that nobody has configured. */
  ghost function Original(m: Memory, s: Step): Snapshot
    requires s.Did? && SawEverything(s.es)
  {
    if Swapped(m, s.in_) || (m.pending.Some? && m.pending.value.iccid != s.in_.iccid)
    then Snapshot(Config("", "", "", ""), MMSettings(Some(""), Some(""), Some(""), Some(1)), AttachContext(true, "IPV4V6", ""))
    else if m.pending.Some? then m.pending.value.before
    else Snapshot(s.es[0].reply.cfg, s.es[1].reply.settings, s.es[2].reply.cid)
  }

  ghost function OriginalState(m: Memory, s: Step): ConnState
    requires s.Did? && |s.es| > 3 && s.es[3].reply.SawState?
  {
    if m.pending.Some? then m.pending.value.state else s.es[3].reply.state
  }

  predicate Bit(u: Option<nat>, value: nat)
    requires value > 0
  {
    u.Some? && u.value / value % 2 == 1
  }

  function Given(t: Option<string>): string {
    if t.Some? then t.value else ""
  }

  /** The credentials a settings dictionary stands for: bit 2 of its allowed methods is
      PAP, bit 4 CHAP, and PAP comes first. */
  predicate IsAuthOf(a: Auth, mm: MMSettings) {
    IsAuth(a, Bit(mm.allowedAuth, 4), Bit(mm.allowedAuth, 2), Given(mm.user), Given(mm.password))
  }

  /** The calls up to the commit `c` restored `before` and read it back. */
  ghost predicate PutBack(es: seq<Event>, c: nat, before: Snapshot, auto: bool) {
    && 9 <= c < |es| && (forall i :: c - 9 <= i <= c && i != c - 5 ==> es[i].ok)
    && es[c - 9].op == SetAutoconnect(false) && es[c - 8].op == Disconnect && es[c - 7].op == Deregister
    && es[c - 6].op == SetGSM(before.nm) && es[c - 5].op == SetMM(before.mm)
    && es[c - 4].op.WriteAuth? && IsAuthOf(es[c - 4].op.auth, before.mm)
    && es[c - 3].op == WriteCID(before.cid)
    && es[c - 2].op == ReadCID && es[c - 2].reply == SawCID(before.cid)
    && es[c - 1].op == GetGSM && es[c - 1].reply.SawGSM? && ReadsAs(es[c - 1].reply.cfg, before.nm)
    && es[c].op == Commit(auto)
  }

  /** The backend as the restored settings are committed. */
  predicate IsBack(b: Backend, before: Snapshot) {
    && ReadsAs(b.nm, before.nm) && b.cid == before.cid && IsAuthOf(b.auth, before.mm)
    && !b.link.auto && !b.link.active && !b.link.registered
  }

  /** The calls after the commit: the modem is reattached, and what was connected is
      connected again. */
  ghost predicate BroughtUp(es: seq<Event>, c: nat, active: bool)
    requires c < |es|
  {
    && |es| == (if active then c + 3 else c + 2)
    && es[c + 1].op == Reattach && es[c + 1].ok
    && (active ==> es[c + 2].op == Connect && es[c + 2].ok)
  }

  predicate WritesSettings(op: Op) {
    op.SetGSM? || op.SetMM? || op.WriteCID? || op.WriteAuth?
  }

  /** Something was written, by a transaction or its rollback. */
  ghost predicate Wrote(es: seq<Event>) {
    exists i :: 0 <= i < |es| && WritesSettings(es[i].op)
  }

  lemma PlanBackIs(before: Snapshot)
    ensures var x := PlanBack(before); x.nm == before.nm && x.mm == before.mm && x.cid == before.cid && IsAuthOf(x.auth, before.mm)
  {
  }

  lemma RestoredPutsBack(r: seq<Event>, before: Snapshot, auto: bool)
    requires Restored(r, PlanBack(before), auto) && r[9].ok
    ensures PutBack(r, 9, before, auto)
  {
    PlanBackIs(before);
    hide PlanBack, IsAuthOf;
    assert forall i :: 0 <= i < 10 ==> r[i].op == RestoreOp(i, PlanBack(before), auto);
  }

  lemma HeldIsBack(b: Backend, before: Snapshot)
    requires Holds(b, PlanBack(before))
    ensures IsBack(b, before)
  {
    PlanBackIs(before);
    hide PlanBack, IsAuthOf;
  }

  lemma PutBackShifts(es: seq<Event>, k: nat, before: Snapshot, auto: bool)
    requires k <= |es| && PutBack(es[k..], 9, before, auto)
    ensures PutBack(es, k + 9, before, auto) && es[k..][9] == es[k + 9]
  {
    hide IsAuthOf;
    var r := es[k..];
    assert forall i :: 0 <= i <= 9 ==> r[i] == es[k + i];
    assert forall i :: k <= i <= k + 9 ==> es[i] == r[i - k];
  }

  lemma TailBringsUp(es: seq<Event>, k: nat, x: Plan, state: ConnState, steady: bool, detached: bool, cancelled: bool)
    requires k <= |es| && Concluded(es[k..], 9, x, state, true, detached, steady, cancelled, true)
    ensures k + 9 < |es| && es[k + 9].ok && (|es| == k + 10 ==> cancelled || !detached)
    ensures |es| > k + 10 ==> BroughtUp(es, k + 9, state.active)
  {
    hide Restored, Holds, AllSound;
    var r := es[k..];
    assert es[k + 9] == r[9];
    if |es| > k + 10 {
      assert r[9 + 1..][0] == es[k + 10];
      if state.active {
        assert r[9 + 1..][1] == es[k + 11];
      }
    }
  }

  /** A transaction that got no further than detaching, with nothing pending and no swap,
      wrote nothing on its way back either. */
  lemma UntouchedWritesNothing(es: seq<Event>, k: nat, o: Pending, x: Plan, any: bool, detached: bool, steady: bool, cancelled: bool)
    requires 1 <= k <= 4 && k <= |es| && es[0].op == GetState
    requires Forwarded(es[1..k], x, any, o.state.autoconnect)
    requires RolledBack(es[k..], PlanBack(o.before), o.state, false, detached, steady, cancelled, true)
    ensures forall i :: 0 <= i < |es| ==> !WritesSettings(es[i].op)
  {
    hide PlanBack, Restored, Holds, Sound, AllSound;
    forall i | 0 <= i < |es| ensures !WritesSettings(es[i].op) {
      if 0 < i < k {
        assert es[i] == es[1..k][i - 1];
      } else if k <= i {
        assert es[i] == es[k..][i - k];
        if i > k {
          assert es[i] == es[k..][0 + 1..][i - k - 1];
        }
      }
    }
  }

  /** A rollback that had something to put back, and left nothing pending. */
  ghost predicate WentBack(es: seq<Event>, c: nat, o: Pending, steady: bool, cancelled: bool, undetached: bool) {
    && PutBack(es, c, o.before, o.state.autoconnect)
    && (steady ==> IsBack(es[c].at, o.before))
    && (if |es| == c + 1 then cancelled || undetached else BroughtUp(es, c, o.state.active))
  }

  lemma RollbackWentBack(es: seq<Event>, k: nat, o: Pending, detached: bool, steady: bool, cancelled: bool)
    requires k <= |es| && RolledBack(es[k..], PlanBack(o.before), o.state, true, detached, steady, cancelled, true)
    ensures WentBack(es, k + 9, o, steady, cancelled, !detached)
  {
    var r := es[k..];
    hide PutBack, IsBack, BroughtUp, PlanBack, AllSound, RestoreCalls;
    assert Concluded(r, 9, PlanBack(o.before), o.state, true, detached, steady, cancelled, true);
    TailBringsUp(es, k, PlanBack(o.before), o.state, steady, detached, cancelled);
    assert r[9] == es[k + 9];
    RestoredPutsBack(r, o.before, o.state.autoconnect);
    PutBackShifts(es, k, o.before, o.state.autoconnect);
    if steady {
      HeldIsBack(r[9].at, o.before);
    }
  }

  lemma FailureWentBack(p: Option<Pending>, iccid: string, cfg: Config, snap: Snapshot, clear: bool,
                        p': Option<Pending>, cid: AttachContext, es: seq<Event>, k: nat, steady: bool, cancelled: bool) returns (c: nat)
    requires Transacted(p, iccid, cfg, snap, clear, p', cid, es, false, k, steady, cancelled)
    ensures p'.None? && Wrote(es) ==>
              && |es| > 1 && es[0].reply.SawState?
              && WentBack(es, c, Opened(p, iccid, es[0].reply.state, snap, clear), steady, cancelled, p.None? && !es[1].ok)
  {
    hide RolledBack, PlanFor, PlanBack;
    c := 0;
    if p'.Some? || !Wrote(es) { return; }
    var o := Opened(p, iccid, es[0].reply.state, snap, clear);
    var forward, any := es[1..k], cfg.IsEmpty();
    assert es[1] == forward[0];
    if !(p.Some? || clear || k > 4) {
      UntouchedWritesNothing(es, k, o, PlanFor(cfg), any, p.Some? || k > 2, steady, cancelled);
    }
    RollbackWentBack(es, k, o, p.Some? || k > 2, steady, cancelled);
    c := k + 9;
    if p.None? && k == 2 {
      assert !Accepted(forward[0], 0, PlanFor(cfg), any);
    }
    hide PutBack, IsBack, BroughtUp, Opened;
  }

  lemma WentBackShifts(es: seq<Event>, k: nat, c: nat, o: Pending, steady: bool, cancelled: bool, undetached: bool)
    requires k <= |es| && WentBack(es[k..], c, o, steady, cancelled, undetached)
    ensures WentBack(es, k + c, o, steady, cancelled, undetached)
  {
    hide IsAuthOf, IsBack;
    var r := es[k..];
    assert forall i :: 0 <= i < |r| ==> r[i] == es[k + i];
    assert forall i :: k + c - 9 <= i <= k + c ==> es[i] == r[i - k];
  }

  lemma OpenedIs(m: Memory, s: Step)
    requires s.Did? && SawEverything(s.es) && |s.es| > 3 && s.es[3].reply.SawState?
    ensures Undertook(m, s) == Pending(Original(m, s), OriginalState(m, s), s.in_.iccid)
  {
    hide SawEverything;
  }

  /** Everything was put back, read back equal and committed by call `c`, credentials
      included, and in a steady world the backend held it at that moment. Then the modem was
      reattached and what had been connected connected, unless the operation was cancelled
      or nothing had been detached. */
  ghost predicate EndedAsBefore(m: Memory, s: Step, c: nat, steady: bool) {
    && s.Did? && SawEverything(s.es) && |s.es| > 4 && s.es[3].reply.SawState?
    && PutBack(s.es, c, Original(m, s), OriginalState(m, s).autoconnect)
    && (steady ==> IsBack(s.es[c].at, Original(m, s)))
    && (if |s.es| == c + 1 then s.cancelled || (m.pending.None? && !s.es[4].ok)
        else BroughtUp(s.es, c, OriginalState(m, s).active))
  }

  /** What failure means. If a transaction failed after something was written, by it or by the
      rollback, and nothing is pending afterwards, then everything is as it was before. */
  lemma FailureRestores(m: Memory, s: Step, m': Memory, steady: bool)
    requires Steps(m, s, m', steady)
    ensures Attempted(s) && s.out == Error && m'.pending.None? && Wrote(s.es) ==> exists c :: EndedAsBefore(m, s, c, steady)
  {
    if Attempted(s) && s.out == Error && m'.pending.None? && Wrote(s.es) {
      var c := TransactionWentBack(m, s, m', steady);
      hide Steps, WentBack, Opened, Original, OriginalState, SawEverything, PutBack, IsBack, BroughtUp, Wrote;
      OpenedIs(m, s);
      WentBackIs(s.es, c, Undertook(m, s), steady, s.cancelled, m.pending.None? && !s.es[4].ok);
      hide Undertook;
      assert EndedAsBefore(m, s, c, steady);
    }
  }

  lemma WrittenLater(m: Memory, s: Step, m': Memory, steady: bool)
    requires Steps(m, s, m', steady)
    ensures Attempted(s) && Wrote(s.es) ==> Wrote(s.es[3..])
  {
    hide Steps;
    if !Attempted(s) || !Wrote(s.es) { return; }
    var i :| 0 <= i < |s.es| && WritesSettings(s.es[i].op);
    if i < 3 {
      SurveyOnlyReads(m, s, m', steady, i);
      assert false;
    }
    assert s.es[3..][i - 3] == s.es[i];
  }

  lemma TransactionWentBack(m: Memory, s: Step, m': Memory, steady: bool) returns (c: nat)
    requires Steps(m, s, m', steady)
    ensures Attempted(s) && s.out == Error && m'.pending.None? && Wrote(s.es) ==>
              && SawEverything(s.es) && |s.es| > 4 && s.es[3].reply.SawState?
              && WentBack(s.es, c, Undertook(m, s), steady, s.cancelled, m.pending.None? && !s.es[4].ok)
  {
    hide Steps, Transacted, WentBack, Opened, SawEverything, WritesSettings, Wrote, Chosen, ClearsSIM, Seen;
    c := 0;
    if !Attempted(s) || s.out != Error || m'.pending.Some? || !Wrote(s.es) { return; }
    var k := StepTransaction(m, s, m', steady);
    var txn := s.es[3..];
    WrittenLater(m, s, m', steady);
    c := FailureWentBack(m.pending, s.in_.iccid, Chosen(m, s.in_), Seen(s.es), ClearsSIM(m, s.in_), m'.pending, m'.lastCID,
                         txn, k, steady, s.cancelled);
    assert txn[0] == s.es[3] && txn[1] == s.es[4];
    WentBackShifts(s.es, 3, c, Undertook(m, s), steady, s.cancelled, m.pending.None? && !s.es[4].ok);
    c := 3 + c;
  }

  lemma WentBackIs(es: seq<Event>, c: nat, o: Pending, steady: bool, cancelled: bool, undetached: bool)
    requires WentBack(es, c, o, steady, cancelled, undetached)
    ensures PutBack(es, c, o.before, o.state.autoconnect)
    ensures steady ==> IsBack(es[c].at, o.before)
    ensures if |es| == c + 1 then cancelled || undetached else BroughtUp(es, c, o.state.active)
  {
    hide PutBack, IsBack;
  }

  /** What a failed transaction leaves pending, if it got past reading the state: what
      it was to go back to. */
  lemma FailureRetains(m: Memory, s: Step, m': Memory, steady: bool)
    requires Steps(m, s, m', steady)
    ensures Attempted(s) && s.out == Error && |s.es| > 4 && m'.pending.Some? ==>
              && SawEverything(s.es) && s.es[3].reply.SawState?
              && m'.pending == Some(Pending(Original(m, s), OriginalState(m, s), s.in_.iccid))
  {
    hide RolledBack, Forwarded, Completed, ValidConfig;
    if Attempted(s) && s.out == Error && |s.es| > 4 && m'.pending.Some? {
      var k := StepTransaction(m, s, m', steady);
      assert s.es[3..][0] == s.es[3];
      hide Steps;
      OpenedIs(m, s);
    }
  }

  // ----- why a transaction failed -----

  /** The k-th call of the forward part is this kind of call. */
  predicate IsCall(op: Op, k: nat) {
    || (k == 1 && op == SetAutoconnect(false)) || (k == 2 && op == Disconnect) || (k == 3 && op == Deregister)
    || (k == 4 && op.SetGSM?) || (k == 5 && op.SetMM?) || (k == 6 && op.WriteCID?) || (k == 7 && op.WriteAuth?)
    || (k == 8 && op == ReadCID) || (k == 9 && op == GetGSM)
    || (k == 10 && op == Reattach) || (k == 11 && op == Connect) || (k == 12 && op == ReadCID) || (k == 13 && op.Commit?)
  }

  /** The k-th call of the forward part ends it: it failed, or read back something else than
      `c`; that the attach settings fail is tolerated unless the operation was cancelled. */
  predicate Ends(e: Event, k: nat, c: Config, cancelled: bool) {
    && IsCall(e.op, k)
    && (|| (!e.ok && (k == 5 ==> cancelled))
        || (k == 8 && !(e.reply.SawCID? && IsContext(e.reply.cid, c.apn)))
        || (k == 9 && !(e.reply.SawGSM? && ReadsAs(e.reply.cfg, c)))
        || (k == 12 && !(e.reply.SawCID? && (IsNothing(c) || IsContext(e.reply.cid, c.apn)))))
  }

  /** The first nine calls of a rollback that has something to put back. */
  ghost predicate RestoreCallsAre(r: seq<Event>, before: Snapshot)
    requires |r| >= 9
  {
    && r[0].op == SetAutoconnect(false) && r[1].op == Disconnect && r[2].op == Deregister
    && r[3].op == SetGSM(before.nm) && r[4].op == SetMM(before.mm)
    && r[5].op.WriteAuth? && IsAuthOf(r[5].op.auth, before.mm) && r[6].op == WriteCID(before.cid)
    && r[7].op == ReadCID && r[8].op == GetGSM
  }

  /** They all went well, but for the attach settings, and read back equal. */
  ghost predicate WentWell(r: seq<Event>, before: Snapshot)
    requires |r| >= 9
  {
    && (forall i :: 0 <= i < 9 && i != 4 ==> r[i].ok)
    && r[7].reply == SawCID(before.cid) && r[8].reply.SawGSM? && ReadsAs(r[8].reply.cfg, before.nm)
  }

  /** The link could not be taken apart: then only the profile is put back. */
  ghost predicate ProfileOnly(r: seq<Event>, before: Snapshot) {
    && 3 <= |r| <= 5 && r[0].op == SetAutoconnect(false) && (|r| > 3 ==> r[1].op == Disconnect) && (|r| > 4 ==> r[2].op == Deregister)
    && !r[|r| - 3].ok && (forall i :: 0 <= i < |r| - 3 ==> r[i].ok)
    && r[|r| - 2].op == SetGSM(before.nm) && r[|r| - 1].op == GetGSM
  }

  /** What a rollback tries. With nothing to put back it commits the policy; otherwise it makes
      all calls it can, whatever fails on the way, and commits exactly if all went well. */
  ghost predicate Tried(r: seq<Event>, changed: bool, before: Snapshot, auto: bool) {
    if !changed then r != [] && r[0].op == Commit(auto)
    else (|| ProfileOnly(r, before)
          || (&& |r| >= 9 && RestoreCallsAre(r, before)
              && (|r| > 9 <==> WentWell(r, before)) && (|r| > 9 ==> r[9].op == Commit(auto))))
  }

  lemma RollbackTries(r: seq<Event>, before: Snapshot, state: ConnState, changed: bool, detached: bool, steady: bool, cancelled: bool, ok: bool)
    requires RolledBack(r, PlanBack(before), state, changed, detached, steady, cancelled, ok)
    ensures Tried(r, changed, before, state.autoconnect)
  {
    var x, auto := PlanBack(before), state.autoconnect;
    PlanBackIs(before);
    hide PlanBack, IsAuthOf, AllSound, Sound, Holds;
    if changed {
      hide RolledBack;
      if GaveUp(r, x, state, changed, ok) {
        GaveUpTried(r, before, auto);
      } else {
        assert Concluded(r, 9, x, state, changed, detached, steady, cancelled, ok) by { Concludes(r, x, state, detached, steady, cancelled, ok); }
        hide RestoreOp;
        assert Restored(r, x, auto);
        OpsAre(r, before, auto);
      }
    }
  }

  lemma Concludes(r: seq<Event>, x: Plan, state: ConnState, detached: bool, steady: bool, cancelled: bool, ok: bool)
    requires RolledBack(r, x, state, true, detached, steady, cancelled, ok) && !GaveUp(r, x, state, true, ok)
    ensures Concluded(r, 9, x, state, true, detached, steady, cancelled, ok)
  {
    hide AllSound, Concluded, GaveUp;
  }

  lemma OpsAre(r: seq<Event>, before: Snapshot, auto: bool)
    requires |r| >= 9 && forall i :: 0 <= i < 9 ==> r[i].op == RestoreOp(i, PlanBack(before), auto)
    ensures RestoreCallsAre(r, before)
  {
    PlanBackIs(before);
    hide PlanBack, IsAuthOf;
  }

  lemma GaveUpTried(r: seq<Event>, before: Snapshot, auto: bool)
    requires RestoreCalls(r, PlanBack(before), auto) && !Restoring(r, 9, PlanBack(before), auto)
    ensures Tried(r, true, before, auto)
  {
    var x := PlanBack(before);
    PlanBackIs(before);
    hide PlanBack;
    if |r| == 9 {
      OpsAre(r, before, auto);
      hide RestoreCallsAre, RestoreOp;
    } else {
      var apart := r[..|r| - 2];
      assert Suspending(apart, x, auto, false);
      assert forall i :: 0 <= i < |apart| ==> r[i] == apart[i];
      hide RestoreCalls, Restoring;
    }
  }

  /** The forward part of a failed transaction ended with its k-th call. All calls up to that one
      were made for the operation; what followed was made under contexts of its own, that
      outlive it: only the reattach and the reconnect are bound to it as well. */
  ghost predicate Caused(m: Memory, s: Step, k: nat) {
    && s.Did? && 1 <= k <= 13 && 3 + k < |s.es| && Ends(s.es[3 + k], k, Asked(m, s.in_), s.cancelled)
    && (forall i :: 0 <= i <= 3 + k ==> s.es[i].scope == Operation)
    && (forall i :: 3 + k < i < |s.es| ==> OwnScope(s.es[i]))
    && SawEverything(s.es) && s.es[3].reply.SawState?
    && Tried(s.es[4 + k..], m.pending.Some? || Swapped(m, s.in_) || k > 3, Original(m, s), OriginalState(m, s).autoconnect)
  }

  predicate OwnScope(e: Event) {
    e.scope == if e.op.Commit? then Grace else if e.op.Reattach? || e.op.Connect? then Reconnect else Cleanup
  }

  lemma StoppedEnds(forward: seq<Event>, c: Config, auto: bool, cancelled: bool)
    requires Forwarded(forward, PlanFor(c), c.IsEmpty(), auto) && Stopped(forward, PlanFor(c), c.IsEmpty(), cancelled)
    ensures 1 <= |forward| <= 13 && Ends(forward[|forward| - 1], |forward|, c, cancelled)
    ensures forall i :: 0 <= i < |forward| ==> forward[i].scope == Operation
  {
    var k := |forward|;
    PlanIs(c);
    hide PlanFor, IsNothing, Sound;
    assert forward[k - 1].op == ForwardOp(k - 1, PlanFor(c), auto);
  }

  lemma TransactionCaused(p: Option<Pending>, iccid: string, cfg: Config, snap: Snapshot, clear: bool,
                          p': Option<Pending>, cid: AttachContext, es: seq<Event>, k: nat, steady: bool, cancelled: bool)
    requires Transacted(p, iccid, cfg, snap, clear, p', cid, es, false, k, steady, cancelled)
    ensures |es| > 1 ==>
              && 2 <= k <= 14 && k <= |es| && es[0].reply.SawState? && Ends(es[k - 1], k - 1, cfg, cancelled)
              && (forall i :: 0 <= i < k ==> es[i].scope == Operation)
              && (forall i :: k <= i < |es| ==> OwnScope(es[i]))
              && var o := Opened(p, iccid, es[0].reply.state, snap, clear);
                 Tried(es[k..], p.Some? || clear || k > 4, o.before, o.state.autoconnect)
  {
    hide RolledBack, Ends, OwnScope, Completed, Forwarded, Stopped, PlanFor, PlanBack, Sound, Tried, Opened;
    if |es| > 1 {
      var o := Opened(p, iccid, es[0].reply.state, snap, clear);
      StoppedEnds(es[1..k], cfg, o.state.autoconnect, cancelled);
      RollbackTries(es[k..], o.before, o.state, p.Some? || clear || k > 4, p.Some? || k > 2, steady, cancelled, p'.None?);
      RollbackScopes(es[k..], PlanBack(o.before), o.state, p.Some? || clear || k > 4, p.Some? || k > 2, steady, cancelled, p'.None?);
      hide Ran;
      assert es[1..k][k - 2] == es[k - 1];
      assert forall i :: 1 <= i < k ==> es[i] == es[1..k][i - 1];
      assert forall i :: k <= i < |es| ==> es[i] == es[k..][i - k];
    }
  }

  /** What `Caused` says, of what the transaction undertook. */
  ghost predicate CausedBy(m: Memory, s: Step, k: nat) {
    && s.Did? && SawEverything(s.es) && |s.es| > 3 && s.es[3].reply.SawState?
    && 1 <= k <= 13 && 3 + k < |s.es| && Ends(s.es[3 + k], k, Chosen(m, s.in_), s.cancelled)
    && (forall i :: 3 <= i <= 3 + k ==> s.es[i].scope == Operation)
    && (forall i :: 3 + k < i < |s.es| ==> OwnScope(s.es[i]))
    && Tried(s.es[4 + k..], m.pending.Some? || ClearsSIM(m, s.in_) || k > 3, Undertook(m, s).before, Undertook(m, s).state.autoconnect)
  }

  lemma FailureCaused(m: Memory, s: Step, m': Memory, steady: bool) returns (k: nat)
    requires Steps(m, s, m', steady)
    ensures Attempted(s) && s.out == Error && |s.es| > 4 ==> CausedBy(m, s, k)
  {
    hide Steps, Transacted, Ends, OwnScope, Tried, SawEverything, Opened, Chosen, ClearsSIM, Seen;
    k := 0;
    if Attempted(s) && s.out == Error && |s.es| > 4 {
      var k1 := StepTransaction(m, s, m', steady);
      var txn := s.es[3..];
      TransactionCaused(m.pending, s.in_.iccid, Chosen(m, s.in_), Seen(s.es), ClearsSIM(m, s.in_), m'.pending, m'.lastCID, txn, k1, steady, s.cancelled);
      k := k1 - 1;
      assert txn[0] == s.es[3] && txn[k] == s.es[3 + k] && txn[k1..] == s.es[4 + k..];
      assert forall i :: 3 <= i < |s.es| ==> s.es[i] == txn[i - 3];
    }
  }

  lemma RollbackScopes(r: seq<Event>, x: Plan, state: ConnState, changed: bool, detached: bool, steady: bool, cancelled: bool, ok: bool)
    requires RolledBack(r, x, state, changed, detached, steady, cancelled, ok)
    ensures forall i :: 0 <= i < |r| ==> OwnScope(r[i])
  {
    hide GaveUp, Concluded, Sound;
  }

  /** Why a transaction failed, once it had read the state: one of its calls did, or read back
      something else. And what it tried to put back then. */
  lemma FailureHasCause(m: Memory, s: Step, m': Memory, steady: bool)
    requires Steps(m, s, m', steady)
    ensures Attempted(s) && s.out == Error && |s.es| > 4 ==> exists k :: Caused(m, s, k)
  {
    if Attempted(s) && s.out == Error && |s.es| > 4 {
      hide Steps, Ends, OwnScope, Tried, SawEverything, Undertook;
      hide Original, OriginalState, Opened, Seen;
      var k := FailureCaused(m, s, m', steady);
      SurveyScope(m, s, m', steady);
      OpenedIs(m, s);
      AskedIs(m, s.in_);
      hide Chosen, Asked, ClearsSIM, Swapped;
      assert Caused(m, s, k);
    }
  }

  lemma AskedIs(m: Memory, in_: Input)
    ensures Chosen(m, in_) == Asked(m, in_) && ClearsSIM(m, in_) == Swapped(m, in_)
  {
  }

  lemma SurveyScope(m: Memory, s: Step, m': Memory, steady: bool)
    requires Steps(m, s, m', steady)
    ensures Attempted(s) ==> forall i :: 0 <= i < 3 ==> s.es[i].scope == Operation
  {
    hide SomeTransaction, InSync, ValidConfig;
    if !Attempted(s) { return; }
    assert SawEverything(s.es);
    assert forall i :: 0 <= i < 3 ==> s.es[..3][i] == s.es[i];
  }

  /** A transaction that ends after reading the state could not read it, or found credentials it
      could not put back, and changes nothing; one that goes on could. */
  lemma UnrestorableIsLeft(m: Memory, s: Step, m': Memory, steady: bool)
    requires Steps(m, s, m', steady)
    ensures Attempted(s) && s.es[3].ok && SawEverything(s.es) && s.es[3].reply.SawState? ==>
              var mm := Original(m, s).mm;
              && (|s.es| == 4 <==> Unsafe(Given(mm.apn)) || Unsafe(Given(mm.user)) || Unsafe(Given(mm.password)))
              && (|s.es| == 4 ==> s.out == Error && m'.pending == m.pending)
  {
    if Attempted(s) && s.es[3].ok && SawEverything(s.es) && s.es[3].reply.SawState? {
      var k := StepTransaction(m, s, m', steady);
      assert s.es[3..][0] == s.es[3];
      OpenedIs(m, s);
      RestorableIs(Original(m, s).mm);
      hide Steps, RolledBack, Completed, Stopped, Unsafe, ValidConfig, Original, OriginalState, SawEverything;
    }
  }

  lemma RestorableIs(mm: MMSettings)
    ensures ValidConfig(ParseMM(mm)) <==> !(Unsafe(Given(mm.apn)) || Unsafe(Given(mm.user)) || Unsafe(Given(mm.password)))
  {
    UnacceptableIs(ParseMM(mm));
    hide Unsafe, ValidConfig;
  }

  // ----- when nothing is done -----

  predicate Unsafe(t: string) {
    '\"' in t || '\r' in t || '\n' in t || ',' in t || '\0' in t
  }

  predicate Unacceptable(c: Config) {
    Unsafe(c.apn) || Unsafe(c.username) || Unsafe(c.password) || c.auth !in {"", "none", "pap", "chap"}
  }

  /** The settings this SIM was cleared for, and no SIM was configured since. */
  predicate ClearedFor(m: Memory, in_: Input) {
    m.lastICCID in {"", in_.iccid} && m.blockedICCID == in_.iccid && SameSettings(m.blockedConfig, in_.desired)
  }

  lemma SameSettingsIs(a: Config, b: Config)
    ensures SameSettings(a, b) <==> a.Equal(b)
  {
  }

  lemma UnacceptableIs(c: Config)
    ensures Unacceptable(c) <==> !ValidConfig(c)
  {
  }

  /** When no backend is called, and what is answered then. */
  lemma UntouchedIff(m: Memory, s: Step, m': Memory, steady: bool)
    requires Steps(m, s, m', steady) && s.Did?
    ensures var invalid := s.contended || s.dead || s.in_.path == "" || Unacceptable(s.in_.desired);
            && (s.es == [] <==> s.in_.iccid == "" || invalid || ClearedFor(m, s.in_))
            && (s.out == NoSIM <==> s.in_.iccid == "")
            && (s.in_.iccid != "" && invalid ==> s.out == Error && m' == m)
            && (s.es == [] && s.in_.iccid != "" && !invalid ==> s.out == Unconfigured)
  {
    hide SomeTransaction, InSync, ValidConfig, Unacceptable, SameSettings;
    UnacceptableIs(s.in_.desired);
    SameSettingsIs(m.blockedConfig, s.in_.desired);
  }

  /** The request is the one whose failures were counted last. */
  predicate Again(m: Memory, in_: Input) {
    in_.iccid == m.retryInput.iccid && in_.path == m.retryInput.path && SameSettings(in_.desired, m.retryInput.desired)
  }

  /** How many failures count, and how long to wait. */
  function Failures(m: Memory, in_: Input): nat {
    if Again(m, in_) then m.attempts else 0
  }

  function NotBefore(m: Memory, in_: Input): nat {
    if Again(m, in_) then m.retryAt else 0
  }

  /** This SIM in this modem has these settings, as far as the manager knows. */
  predicate Verified(m: Memory, in_: Input) {
    m.lastICCID == in_.iccid && m.lastPath == in_.path && SameSettings(m.lastConfig, Asked(m, in_))
  }

  /** The attach settings say the same. */
  predicate Attaches(mm: MMSettings, c: Config) {
    && Given(mm.apn) == c.apn && Given(mm.user) == c.username && Given(mm.password) == c.password
    && SameAuth(c.auth, if Bit(mm.allowedAuth, 2) then "pap" else if Bit(mm.allowedAuth, 4) then "chap" else "none")
  }

  /** What the survey saw needs no change. */
  ghost predicate Agrees(m: Memory, s: Step)
    requires s.Did? && SawEverything(s.es)
  {
    var c, cid := Asked(m, s.in_), s.es[2].reply.cid;
    && ReadsAs(s.es[0].reply.cfg, c)
    && (IsContext(cid, c.apn) || (IsNothing(c) && (cid.apn == "" || (Verified(m, s.in_) && cid == m.lastCID))))
    && (Attaches(s.es[1].reply.settings, c) || Verified(m, s.in_))
  }

  lemma AttachesIs(mm: MMSettings, c: Config)
    ensures Attaches(mm, c) <==> ParseMM(mm).Equal(c)
  {
  }

  lemma ContextIs(cid: AttachContext, c: Config)
    ensures IsContext(cid, c.apn) <==> cid == DesiredContext(c)
    ensures IsNothing(c) <==> c.IsEmpty()
    ensures forall o: Config :: ReadsAs(o, c) <==> o.EqualNM(c)
  {
  }

  lemma InSyncIs(m: Memory, s: Step)
    requires s.Did? && SawEverything(s.es)
    ensures InSync(Admitted(m, s.in_), s.in_, Chosen(m, s.in_), Seen(s.es)) <==>
              Failures(m, s.in_) == 0 && m.pending.None? && Agrees(m, s)
  {
    var c := Asked(m, s.in_);
    AttachesIs(s.es[1].reply.settings, c);
    ContextIs(s.es[2].reply.cid, c);
    SameSettingsIs(s.in_.desired, m.retryInput.desired);
    SameSettingsIs(m.lastConfig, c);
    hide SawEverything, Attaches, IsContext, IsNothing, ReadsAs, SameSettings, ParseMM, DesiredContext;
  }

  /** Which of the three it is, once the survey got through: nothing is changed and success is
      answered exactly if no failure counts, nothing is pending and what was seen agrees; else
      the request is refused exactly if three failures count or it is too early. */
  lemma SurveyDecides(m: Memory, s: Step, m': Memory, steady: bool)
    requires Steps(m, s, m', steady) && s.Did? && SawEverything(s.es)
    ensures var agreed := Failures(m, s.in_) == 0 && m.pending.None? && Agrees(m, s);
            && (|s.es| == 3 && s.out != Error <==> agreed)
            && (agreed ==> s.out == if Swapped(m, s.in_) then ICCIDChangedClear else if IsNothing(s.in_.desired) then Unconfigured else InOrder)
            && (|s.es| == 3 && s.out == Error ==> Failures(m, s.in_) >= 3 || s.es[2].time < NotBefore(m, s.in_))
            && (|s.es| > 3 ==> Failures(m, s.in_) < 3 && NotBefore(m, s.in_) <= s.es[3].time)
  {
    hide SomeTransaction, ValidConfig;
    InSyncIs(m, s);
    SameSettingsIs(s.in_.desired, m.retryInput.desired);
    ContextIs(s.es[2].reply.cid, s.in_.desired);
    hide InSync, SawEverything, Agrees, IsNothing, SameSettings;
  }

  /** What a failure counts for: one more of the same request, the first of another; and
      when to try again, half a minute, a minute and two minutes later. */
  lemma FailureIsCounted(m: Memory, s: Step, m': Memory, steady: bool)
    requires Steps(m, s, m', steady)
    ensures Attempted(s) && s.out == Error ==>
              && m'.retryInput.iccid == s.in_.iccid && m'.retryInput.path == s.in_.path
              && SameSettings(m'.retryInput.desired, s.in_.desired)
              && m'.attempts == Failures(m, s.in_) + 1 <= 3
              && m'.retryAt == s.end + (if m'.attempts == 1 then 30 else if m'.attempts == 2 then 60 else 120)
  {
    hide SomeTransaction, ValidConfig, InSync;
    if s.Did? {
      SameSettingsIs(s.in_.desired, m.retryInput.desired);
      SameSettingsIs(m'.retryInput.desired, s.in_.desired);
    }
    assert Backoff(1) == 30 && Backoff(2) == 60 && Backoff(3) == 120;
    hide SawEverything, SameSettings, Backoff;
  }
}

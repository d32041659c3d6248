/** Bounded retry, convergence and the block after a SIM change, over every run. */
module ApnRetry {
  import opened Wrappers
  import opened ApnConfig
  import opened ApnBackend
  import opened ApnTransaction
  import opened ApnReconcile
  import opened ApnRuns

  predicate Rejects(s: Step)
    requires s.Did?
  {
    s.in_.iccid == "" || s.contended || s.dead || s.in_.path == "" || !ValidConfig(s.in_.desired)
  }

  /** A reset of the retries, or a request that was accepted and differs from the last one:
      what is attempted from here on is counted from the beginning. */
  predicate Renews(m: Memory, s: Step) {
    s.WasReset? || (!Rejects(s) && !SameRequest(s.in_, m.retryInput))
  }

  /** A request that was satisfied, by a transaction or without one. */
  predicate Succeeds(s: Step) {
    s.Did? && s.out != Error && |s.es| >= 3
  }

  predicate StartsAfresh(m: Memory, s: Step) {
    Renews(m, s) || Succeeds(s)
  }

  predicate FailedAttempt(s: Step) {
    Attempted(s) && s.out == Error
  }

  function FailedAttempts(ss: seq<Step>): nat {
    if ss == [] then 0 else FailedAttempts(ss[..|ss| - 1]) + (if FailedAttempt(ss[|ss| - 1]) then 1 else 0)
  }

  /** The step that starts afresh counts its own attempt, if it made one that failed, and
      schedules the next. */
  lemma FreshCounts(m: Memory, s: Step, m': Memory, steady: bool)
    requires Steps(m, s, m', steady) && StartsAfresh(m, s)
    ensures if FailedAttempt(s) then m'.attempts == 1 && m'.retryAt == s.end + 30 else m'.attempts == 0 && m'.retryAt == 0
  {
    hide SomeTransaction, InSync, ValidConfig;
  }

  /** Any other step counts its attempt and schedules the next, or only reads and leaves
      the schedule alone. */
  lemma StepCounts(m: Memory, s: Step, m': Memory, steady: bool)
    requires Steps(m, s, m', steady) && !StartsAfresh(m, s)
    ensures if Attempted(s)
            then && s.out == Error && m.attempts < MAX_APPLY_ATTEMPTS && m'.attempts == m.attempts + 1
                 && m.retryAt <= s.es[3].time <= s.end && m'.retryAt == s.end + Backoff(m'.attempts)
            else && m'.attempts == m.attempts && m'.retryAt == m.retryAt
                 && forall j :: 0 <= j < |EventsOf(s)| ==> s.es[j].op.Reads()
  {
    hide SomeTransaction, InSync;
    if !Attempted(s) {
      forall j | 0 <= j < |EventsOf(s)| ensures s.es[j].op.Reads() {
        StepEvents(m, s, m', steady, j);
      }
    }
  }

  /** A success obeys the same limits, if it needed a transaction and the request is the same. */
  lemma SuccessObeys(m: Memory, s: Step, m': Memory, steady: bool)
    requires Steps(m, s, m', steady)
    ensures Attempted(s) && !Renews(m, s) ==> m.attempts < MAX_APPLY_ATTEMPTS && m.retryAt <= s.es[3].time
  {
    hide SomeTransaction, InSync;
  }

  /** One sequence of attempts: it begins with a fresh start, none comes in between, and it
      may end in a success. */
  ghost predicate OneSequence(ms: seq<Memory>, ss: seq<Step>, steady: bool) {
    && IsRun(ms, ss, steady) && ss != [] && StartsAfresh(ms[0], ss[0])
    && forall i :: 0 < i < |ss| ==> !Renews(ms[i], ss[i]) && (i < |ss| - 1 ==> !Succeeds(ss[i]))
  }

  /** Short of its end, a sequence has counted exactly its failed attempts. */
  lemma {:induction false} SequenceCounts(ms: seq<Memory>, ss: seq<Step>, steady: bool, n: nat)
    requires OneSequence(ms, ss, steady) && 0 < n <= |ss| && (n == |ss| && n > 1 ==> !Succeeds(ss[n - 1]))
    ensures ms[n].attempts == FailedAttempts(ss[..n]) <= MAX_APPLY_ATTEMPTS
    decreases n
  {
    hide Steps, Renews, Succeeds;
    assert Steps(ms[n - 1], ss[n - 1], ms[n], steady);
    assert ss[..n][..n - 1] == ss[..n - 1] && ss[..n][n - 1] == ss[n - 1];
    if n == 1 {
      FreshCounts(ms[0], ss[0], ms[1], steady);
      assert ss[..0] == [];
    } else {
      SequenceCounts(ms, ss, steady, n - 1);
      StepCounts(ms[n - 1], ss[n - 1], ms[n], steady);
    }
  }

  /** Bounded retry. Of one sequence, the attempt of its first step included, at most three
      transactions fail; with the success that may end it there are at most three; and every
      call after the first that makes none only reads. */
  lemma BoundedRetry(ms: seq<Memory>, ss: seq<Step>, steady: bool)
    requires OneSequence(ms, ss, steady)
    ensures FailedAttempts(ss) <= 3
    ensures |ss| > 1 && Attempted(ss[|ss| - 1]) && Succeeds(ss[|ss| - 1]) ==> FailedAttempts(ss) <= 2
    ensures forall i, j :: 0 < i < |ss| && !Attempted(ss[i]) && 0 <= j < |EventsOf(ss[i])| ==> EventsOf(ss[i])[j].op.Reads()
  {
    hide Steps, Renews, Succeeds;
    var n := |ss|;
    assert ss[..n] == ss && Steps(ms[n - 1], ss[n - 1], ms[n], steady);
    if n == 1 || !Succeeds(ss[n - 1]) {
      SequenceCounts(ms, ss, steady, n);
    } else {
      SequenceCounts(ms, ss, steady, n - 1);
      SuccessIsNoFailure(ss[n - 1]);
      if Attempted(ss[n - 1]) {
        SuccessObeys(ms[n - 1], ss[n - 1], ms[n], steady);
      }
    }
    forall i, j | 0 < i < n && !Attempted(ss[i]) && 0 <= j < |EventsOf(ss[i])| ensures EventsOf(ss[i])[j].op.Reads() {
      assert Steps(ms[i], ss[i], ms[i + 1], steady);
      StepEvents(ms[i], ss[i], ms[i + 1], steady, j);
    }
  }

  lemma SuccessIsNoFailure(s: Step)
    requires Succeeds(s)
    ensures !FailedAttempt(s)
  {
  }

  /** Within a sequence nothing comes before the schedule of an attempt that failed. */
  lemma {:induction false} ScheduleHolds(ms: seq<Memory>, ss: seq<Step>, steady: bool, i: nat, j: nat)
    requires OneSequence(ms, ss, steady) && i < j < |ss| && FailedAttempt(ss[i])
    ensures ms[j].retryAt >= ss[i].end + Backoff(FailedAttempts(ss[..i + 1]))
    decreases j
  {
    hide Steps, Renews, Succeeds;
    assert Steps(ms[j - 1], ss[j - 1], ms[j], steady);
    if i < j - 1 {
      ScheduleHolds(ms, ss, steady, i, j - 1);
      StepCounts(ms[j - 1], ss[j - 1], ms[j], steady);
    } else if i == 0 {
      FreshCounts(ms[0], ss[0], ms[1], steady);
      SequenceCounts(ms, ss, steady, 1);
    } else {
      StepCounts(ms[i], ss[i], ms[i + 1], steady);
      SequenceCounts(ms, ss, steady, i + 1);
    }
  }

  /** Doubling gaps. Of two attempts of one sequence, the first step's own and the success
      that ends it included, the later begins at least the backoff of the earlier after that
      one ended: 30 seconds after the first failure, 60 after the second. */
  lemma RetryGap(ms: seq<Memory>, ss: seq<Step>, steady: bool, i: nat, j: nat)
    requires OneSequence(ms, ss, steady) && i < j < |ss| && FailedAttempt(ss[i]) && Attempted(ss[j])
    ensures ss[j].es[3].time >= ss[i].end + Backoff(FailedAttempts(ss[..i + 1]))
    ensures FailedAttempts(ss[..i + 1]) == 1 ==> ss[j].es[3].time - ss[i].end >= 30
    ensures FailedAttempts(ss[..i + 1]) == 2 ==> ss[j].es[3].time - ss[i].end >= 60
  {
    hide Steps, Renews, Succeeds;
    ScheduleHolds(ms, ss, steady, i, j);
    assert Steps(ms[j], ss[j], ms[j + 1], steady);
    SuccessObeys(ms[j], ss[j], ms[j + 1], steady);
    assert Backoff(2) == 60;
  }

  // ----- from the start of a process -----

  /** No request was accepted yet. */
  const NO_REQUEST := Input("", "", NoConfig)

  predicate Accepts(s: Step) {
    s.Did? && !Rejects(s)
  }

  /** Every request that is accepted asks for the same. */
  ghost predicate AllAskFor(ss: seq<Step>, in_: Input) {
    forall i :: 0 <= i < |ss| ==> ss[i].Did? && (Accepts(ss[i]) ==> SameRequest(ss[i].in_, in_))
  }

  /** The first accepted request of a process begins a sequence. */
  lemma FirstRequestRenews(m: Memory, s: Step)
    requires m.retryInput == NO_REQUEST && Accepts(s)
    ensures Renews(m, s)
  {
  }

  lemma PursuitKeepsRequest(a: Memory, in_: Input, cfg: Config, clear: bool, m': Memory, out: Outcome,
                            es: seq<Event>, end: nat, steady: bool, cancelled: bool)
    requires Pursued(a, in_, cfg, clear, m', out, es, end, steady, cancelled)
    ensures m'.retryInput == a.retryInput
  {
    hide SomeTransaction, InSync, SawEverything, SurveyFailed;
  }

  lemma RequestIsRemembered(m: Memory, s: Step, m': Memory, steady: bool, in_: Input)
    requires Steps(m, s, m', steady) && s.Did? && (Accepts(s) ==> SameRequest(s.in_, in_))
    ensures !Accepts(s) ==> m'.retryInput == m.retryInput && !Attempted(s)
    ensures Accepts(s) ==> SameRequest(m'.retryInput, in_)
  {
    hide Pursued, ValidConfig, ClearsSIM, Blocked;
    if Accepts(s) && !Blocked(m, s.in_) {
      PursuitKeepsRequest(Admitted(m, s.in_), s.in_, Chosen(m, s.in_), ClearsSIM(m, s.in_), m', s.out, s.es, s.end, steady, s.cancelled);
    }
  }

  function FirstAccepted(ss: seq<Step>): (k: nat)
    ensures k <= |ss| && (forall i :: 0 <= i < k ==> !Accepts(ss[i])) && (k < |ss| ==> Accepts(ss[k]))
  {
    if ss == [] || Accepts(ss[0]) then 0 else 1 + FirstAccepted(ss[1..])
  }

  /** Up to the first accepted request nothing is asked or attempted, and after it the
      memory holds that request. */
  lemma {:induction false} RequestSoFar(ms: seq<Memory>, ss: seq<Step>, steady: bool, in_: Input, n: nat)
    requires IsRun(ms, ss, steady) && ms[0].retryInput == NO_REQUEST && AllAskFor(ss, in_) && n <= |ss|
    ensures n <= FirstAccepted(ss) ==> ms[n].retryInput == NO_REQUEST && FailedAttempts(ss[..n]) == 0
    ensures n > FirstAccepted(ss) ==> SameRequest(ms[n].retryInput, in_)
  {
    if n > 0 {
      hide Steps, Accepts, SameRequest, FailedAttempt;
      RequestSoFar(ms, ss, steady, in_, n - 1);
      var s := ss[n - 1];
      assert Steps(ms[n - 1], s, ms[n], steady) && s.Did? && (Accepts(s) ==> SameRequest(s.in_, in_));
      hide IsRun, AllAskFor;
      RequestStep(ms[n - 1], s, ms[n], steady, in_);
      assert ss[..n][..n - 1] == ss[..n - 1];
    }
  }

  lemma RequestStep(m: Memory, s: Step, m': Memory, steady: bool, in_: Input)
    requires Steps(m, s, m', steady) && s.Did? && (Accepts(s) ==> SameRequest(s.in_, in_))
    ensures !Accepts(s) ==> m'.retryInput == m.retryInput && !FailedAttempt(s)
    ensures Accepts(s) ==> SameRequest(m'.retryInput, in_)
  {
    hide Steps, Accepts, SameRequest;
    RequestIsRemembered(m, s, m', steady, in_);
  }

  lemma {:induction false} AttemptsAdd(a: seq<Step>, b: seq<Step>)
    ensures FailedAttempts(a + b) == FailedAttempts(a) + FailedAttempts(b)
  {
    if b == [] {
      assert a + b == a;
    } else {
      assert (a + b)[..|a + b| - 1] == a + b[..|b| - 1];
      AttemptsAdd(a, b[..|b| - 1]);
    }
  }

  lemma AttemptsFrom(ss: seq<Step>, k: nat, n: nat)
    requires k <= n <= |ss|
    ensures FailedAttempts(ss[..n]) == FailedAttempts(ss[..k]) + FailedAttempts(ss[k..][..n - k])
    ensures n == |ss| ==> ss[..n] == ss && ss[k..][..n - k] == ss[k..]
  {
    assert ss[..n] == ss[..k] + ss[k..][..n - k];
    AttemptsAdd(ss[..k], ss[k..][..n - k]);
  }

  /** What a new process does about its first request is one sequence, from the first call
      that is accepted. */
  lemma FirstSequence(ms: seq<Memory>, ss: seq<Step>, steady: bool, in_: Input)
    requires IsRun(ms, ss, steady) && ms[0].retryInput == NO_REQUEST && AllAskFor(ss, in_)
    requires forall i :: 0 <= i < |ss| - 1 ==> !Succeeds(ss[i])
    ensures var k := FirstAccepted(ss); k < |ss| ==> OneSequence(ms[k..], ss[k..], steady)
  {
    var k := FirstAccepted(ss);
    hide Steps, Renews, Succeeds, Accepts, AllAskFor, FirstAccepted;
    if k < |ss| {
      RequestSoFar(ms, ss, steady, in_, k);
      FirstRequestRenews(ms[k], ss[k]);
      forall i | k < i < |ss| ensures !Renews(ms[i], ss[i]) {
        RequestSoFar(ms, ss, steady, in_, i);
        NotRenewed(ms[i], ss, in_, i);
      }
      assert IsRun(ms[k..], ss[k..], steady);
    }
  }

  lemma NotRenewed(m: Memory, ss: seq<Step>, in_: Input, i: nat)
    requires AllAskFor(ss, in_) && i < |ss| && SameRequest(m.retryInput, in_)
    ensures !Renews(m, ss[i])
  {
    hide Rejects;
    assert Accepts(ss[i]) ==> SameRequest(ss[i].in_, in_);
  }

  /** Bounded retry from the start: as long as a new process is asked for the same and did
      not succeed, at most three transactions fail. */
  lemma ProcessRetriesBounded(ms: seq<Memory>, ss: seq<Step>, steady: bool, in_: Input)
    requires IsRun(ms, ss, steady) && ms[0].retryInput == NO_REQUEST && AllAskFor(ss, in_)
    requires forall i :: 0 <= i < |ss| - 1 ==> !Succeeds(ss[i])
    ensures FailedAttempts(ss) <= 3
  {
    hide OneSequence, AllAskFor, Accepts, FirstAccepted, FailedAttempts;
    var k := FirstAccepted(ss);
    assert k <= |ss| < |ms|;
    hide IsRun;
    RequestSoFar(ms, ss, steady, in_, k);
    FirstSequence(ms, ss, steady, in_);
    AttemptsFrom(ss, k, |ss|);
    if k < |ss| {
      BoundedRetry(ms[k..], ss[k..], steady);
    }
  }

  /** And an attempt begins at least the backoff after any failure before it. */
  lemma ProcessRetryGap(ms: seq<Memory>, ss: seq<Step>, steady: bool, in_: Input, i: nat, j: nat)
    requires IsRun(ms, ss, steady) && ms[0].retryInput == NO_REQUEST && AllAskFor(ss, in_)
    requires forall n :: 0 <= n < |ss| - 1 ==> !Succeeds(ss[n])
    requires i < j < |ss| && FailedAttempt(ss[i]) && Attempted(ss[j])
    ensures ss[j].es[3].time >= ss[i].end + Backoff(FailedAttempts(ss[..i + 1]))
  {
    hide OneSequence, AllAskFor, Accepts, FirstAccepted, FailedAttempts, Backoff;
    var k := FirstAccepted(ss);
    assert k <= |ss| < |ms|;
    hide IsRun;
    RequestSoFar(ms, ss, steady, in_, k);
    FirstSequence(ms, ss, steady, in_);
    hide Succeeds;
    IdleBefore(ms, ss, steady, in_, i);
    AttemptsFrom(ss, k, i + 1);
    RetryGap(ms[k..], ss[k..], steady, i - k, j - k);
  }

  lemma IdleBefore(ms: seq<Memory>, ss: seq<Step>, steady: bool, in_: Input, i: nat)
    requires IsRun(ms, ss, steady) && AllAskFor(ss, in_) && i < |ss|
    ensures Attempted(ss[i]) ==> i >= FirstAccepted(ss)
  {
    hide Steps, Accepts;
    assert Steps(ms[i], ss[i], ms[i + 1], steady);
    RequestIsRemembered(ms[i], ss[i], ms[i + 1], steady, in_);
  }

  // ----- convergence -----

  /** The request is satisfied, as far as the manager knows. */
  predicate Converged(m: Memory, in_: Input) {
    && m.pending.None? && m.attempts == 0
    && in_.iccid != "" && m.lastICCID == in_.iccid && m.lastPath == in_.path && m.lastConfig.Equal(in_.desired)
    && m.blockedICCID != in_.iccid
    && (in_.desired.IsEmpty() || m.lastCID == DesiredContext(in_.desired))
  }

  /** The survey read what the last success left: the profile asked for, and CID1 as it was. */
  ghost predicate Unchanged(m: Memory, in_: Input, es: seq<Event>) {
    SawEverything(es) && Seen(es).nm.EqualNM(in_.desired) && Seen(es).cid == m.lastCID
  }

  lemma SuccessConverges(m: Memory, s: Step, m': Memory, steady: bool)
    requires Steps(m, s, m', steady)
    ensures s.Did? && (s.out == Applied || s.out == InOrder) ==> Converged(m', s.in_)
  {
    hide Ran, Sound;
    if s.Did? && (s.out == Applied || s.out == InOrder) && Attempted(s) {
      var k := StepTransaction(m, s, m', steady);
      var txn := s.es[3..];
      CompletedReadsBack(m.pending, s.in_.iccid, Chosen(m, s.in_), Seen(s.es), ClearsSIM(m, s.in_), m'.pending, m'.lastCID,
                         txn, k, steady, s.cancelled);
    }
  }

  lemma CompletedReadsBack(p: Option<Pending>, iccid: string, cfg: Config, snap: Snapshot, clear: bool,
                           p': Option<Pending>, cid: AttachContext, es: seq<Event>, k: nat, steady: bool, cancelled: bool)
    requires Transacted(p, iccid, cfg, snap, clear, p', cid, es, true, k, steady, cancelled)
    ensures p'.None? && (cfg.IsEmpty() || cid == DesiredContext(cfg))
  {
    assert Accepted(es[1..k][11], 11, PlanFor(cfg), cfg.IsEmpty());
  }

  /** The answer to a repeated request: a rejection, an error if something could not be
      read, and otherwise the same as ever. */
  ghost function Repeated(s: Step): Outcome
    requires s.Did?
  {
    if Rejects(s) then if s.in_.iccid == "" then NoSIM else Error
    else if !SawEverything(s.es) then Error
    else if s.in_.desired.IsEmpty() then Unconfigured
    else InOrder
  }

  lemma StaysConverged(m: Memory, s: Step, m': Memory, steady: bool, in_: Input)
    requires Converged(m, in_) && Steps(m, s, m', steady) && s.Did?
    requires !Rejects(s) ==> SameRequest(s.in_, in_) && (SawEverything(s.es) ==> Unchanged(m, in_, s.es))
    ensures s.out == Repeated(s) && !Attempted(s)
    ensures Converged(m', in_) && m'.lastCID == m.lastCID
  {
    hide SomeTransaction, ValidConfig;
  }

  /** Convergence. After a success, as long as the surveys that get through read what it
      left, repeating the request never does more than read, and what is answered depends
      only on whether the call is accepted and the survey gets through. */
  lemma {:induction false} Convergence(ms: seq<Memory>, ss: seq<Step>, steady: bool)
    requires IsRun(ms, ss, steady) && |ss| > 0 && ss[0].Did? && (ss[0].out == Applied || ss[0].out == InOrder)
    requires forall i :: 0 < i < |ss| ==>
               && ss[i].Did?
               && (!Rejects(ss[i]) ==>
                     SameRequest(ss[i].in_, ss[0].in_) && (SawEverything(ss[i].es) ==> Unchanged(ms[1], ss[0].in_, ss[i].es)))
    ensures Converged(ms[|ss|], ss[0].in_) && ms[|ss|].lastCID == ms[1].lastCID
    ensures forall i :: 0 < i < |ss| ==>
              && ss[i].out == Repeated(ss[i])
              && forall j :: 0 <= j < |EventsOf(ss[i])| ==> EventsOf(ss[i])[j].op.Reads()
    decreases |ss|
  {
    hide Steps, Converged, SameRequest, Rejects, SawEverything, Repeated;
    var n := |ss| - 1;
    assert Steps(ms[n], ss[n], ms[n + 1], steady);
    if n == 0 {
      SuccessConverges(ms[0], ss[0], ms[1], steady);
    } else {
      Convergence(ms[..n + 1], ss[..n], steady);
      StaysConverged(ms[n], ss[n], ms[n + 1], steady, ss[0].in_);
      forall j | 0 <= j < |EventsOf(ss[n])| ensures EventsOf(ss[n])[j].op.Reads() {
        StepEvents(ms[n], ss[n], ms[n + 1], steady, j);
      }
    }
  }

  // ----- the block after a SIM change -----

  predicate BlockedFor(m: Memory, in_: Input) {
    in_.iccid != "" && m.lastICCID == in_.iccid && m.blockedICCID == in_.iccid && m.blockedConfig.Equal(in_.desired)
  }

  lemma ClearingBlocks(m: Memory, s: Step, m': Memory, steady: bool)
    requires Steps(m, s, m', steady) && s.Did? && s.out == ICCIDChangedClear
    ensures BlockedFor(m', s.in_)
  {
    hide InSync, ValidConfig;
  }

  lemma StaysBlocked(m: Memory, s: Step, m': Memory, steady: bool, in_: Input)
    requires Steps(m, s, m', steady) && BlockedFor(m, in_)
    requires s.Did? ==> s.in_.iccid == in_.iccid && s.in_.desired.Equal(in_.desired)
    ensures BlockedFor(m', in_) && EventsOf(s) == []
    ensures s.Did? ==> s.out == if Rejects(s) then Error else Unconfigured
  {
    hide SomeTransaction, InSync, ValidConfig;
  }

  /** After a SIM was cleared, the same SIM with the same settings is left alone for
      good: over any run of retry resets and such requests, whatever the modem path,
      every answer is Unconfigured (or a rejection) and no backend is called. */
  lemma {:induction false} ClearedSIMStaysBlocked(ms: seq<Memory>, ss: seq<Step>, steady: bool)
    requires IsRun(ms, ss, steady) && |ss| > 0 && ss[0].Did? && ss[0].out == ICCIDChangedClear
    requires forall i :: 0 < i < |ss| && ss[i].Did? ==>
               ss[i].in_.iccid == ss[0].in_.iccid && ss[i].in_.desired.Equal(ss[0].in_.desired)
    ensures BlockedFor(ms[|ss|], ss[0].in_)
    ensures forall i :: 0 < i < |ss| ==> EventsOf(ss[i]) == [] && (ss[i].Did? ==> ss[i].out == if Rejects(ss[i]) then Error else Unconfigured)
    decreases |ss|
  {
    hide Steps, BlockedFor, Rejects;
    var n := |ss| - 1;
    assert Steps(ms[n], ss[n], ms[n + 1], steady);
    if n == 0 {
      ClearingBlocks(ms[0], ss[0], ms[1], steady);
    } else {
      ClearedSIMStaysBlocked(ms[..n + 1], ss[..n], steady);
      StaysBlocked(ms[n], ss[n], ms[n + 1], steady, ss[0].in_);
    }
  }
}

/** The remedy policy: confirmation, cooldowns, and the guarantees of both over whole runs. */
module RemedyPolicy {
  import opened Wrappers
  import opened Link

  const REMEDY_CONFIRMATIONS: nat := 2
  const MINUTE: int := 60

  /** Seconds. */
  function Cooldown(r: Remedy): int {
    match r
    case Reattach => 5 * MINUTE
    case BearerBounce => 5 * MINUTE
    case ModemReset => 30 * MINUTE
    case NoRemedy => 0
  }

  /** What applying a remedy finds: a recovery already under way, the modem switched off
      by command, the modem there or not. */
  datatype Scene = Scene(recovering: bool, enabled: bool, found: bool)

  /** The remedy is carried out rather than skipped. */
  predicate Runs(r: Remedy, scene: Scene) {
    !scene.recovering && scene.enabled && (r == Reattach ==> scene.found)
  }

  /** One tick of the policy: an assessment handled at a time, with the remedy it
      dispatched, or a tick skipped while an APN transaction settles. */
  datatype Entry = Handled(a: Assessment, now: int, dispatched: Option<Remedy>) | Settling

  predicate Actionable(e: Entry) {
    e.Handled? && !e.a.healthy && e.a.remedy != NoRemedy
  }

  /** The entries at the end of the log that fail at the same layer with a real remedy. */
  function Repeats(log: seq<Entry>, n: nat, l: Layer): nat
    requires n <= |log|
  {
    if n == 0 || !Actionable(log[n - 1]) || log[n - 1].a.failedLayer != l then 0 else 1 + Repeats(log, n - 1, l)
  }

  predicate Dispatches(e: Entry, r: Remedy) {
    e.Handled? && e.dispatched == Some(r)
  }

  /** When the remedy was last dispatched. */
  function LastDispatch(log: seq<Entry>, n: nat, r: Remedy): Option<int>
    requires n <= |log|
  {
    if n == 0 then None
    else if Dispatches(log[n - 1], r) then Some(log[n - 1].now)
    else LastDispatch(log, n - 1, r)
  }

  predicate Cooling(log: seq<Entry>, n: nat, r: Remedy, now: int)
    requires n <= |log|
  {
    LastDispatch(log, n, r).Some? && now < LastDispatch(log, n, r).value + Cooldown(r)
  }

  /** The failure was seen by the previous tick too. */
  predicate Confirmed(log: seq<Entry>, n: nat, a: Assessment)
    requires n <= |log|
  {
    && !a.healthy && a.remedy != NoRemedy
    && n > 0 && Actionable(log[n - 1]) && log[n - 1].a.failedLayer == a.failedLayer
  }

  /** What the policy owes an assessment after the first `n` entries: its remedy, if the
      failure is confirmed and the remedy is not cooling down. */
  function Decision(log: seq<Entry>, n: nat, a: Assessment, now: int): Option<Remedy>
    requires n <= |log|
  {
    if Confirmed(log, n, a) && !Cooling(log, n, a.remedy, now) then Some(a.remedy) else None
  }

  lemma {:induction false} LogPrefixSame(log: seq<Entry>, e: Entry, n: nat)
    requires n <= |log|
    ensures forall l :: Repeats(log + [e], n, l) == Repeats(log, n, l)
    ensures forall r :: LastDispatch(log + [e], n, r) == LastDispatch(log, n, r)
  {
    if n > 0 {
      LogPrefixSame(log, e, n - 1);
    }
  }

  class Policy {
    const assessor: Assessor
    var pendingLayer: Layer
    var pendingRepeat: nat
    var cooldown: map<Remedy, int>
    ghost var log: seq<Entry>

    /** The pending evidence is what the entries `es` end in. */
    ghost predicate Evidence(es: seq<Entry>)
      reads this`pendingLayer, this`pendingRepeat
    {
      && pendingRepeat == Repeats(es, |es|, pendingLayer)
      && forall l :: l != pendingLayer ==> Repeats(es, |es|, l) == 0
    }

    ghost predicate Valid()
      reads this
    {
      && Evidence(log)
      && (forall r :: r in cooldown <==> LastDispatch(log, |log|, r).Some?)
      && (forall r :: r in cooldown ==> cooldown[r] == LastDispatch(log, |log|, r).value + Cooldown(r))
    }

    constructor (assessor: Assessor)
      ensures this.assessor == assessor && Valid() && log == []
    {
      this.assessor := assessor;
      pendingLayer, pendingRepeat, cooldown, log := Hardware, 0, map[], [];
    }

    /** A tick during an APN transaction breaks the evidence. */
    method Skip()
      requires Valid()
      modifies this
      ensures Valid() && log == old(log) + [Settling]
    {
      LogPrefixSame(log, Settling, |log|);
      pendingRepeat := 0;
      log := log + [Settling];
    }

    /** Weighs one more assessment, about to be logged as `e`: evidence must repeat,
        through handoffs and bring-up. */
    method Weigh(a: Assessment, ghost e: Entry) returns (confirmed: bool)
      requires Evidence(log) && e.Handled? && e.a == a
      modifies this`pendingLayer, this`pendingRepeat
      ensures Evidence(log + [e]) && confirmed == Confirmed(log, |log|, a)
    {
      LogPrefixSame(log, e, |log|);
      if a.healthy || a.remedy == NoRemedy {
        pendingRepeat := 0;
        return false;
      }
      if a.failedLayer != pendingLayer {
        pendingLayer, pendingRepeat := a.failedLayer, 1;
      } else {
        pendingRepeat := pendingRepeat + 1;
      }
      confirmed := pendingRepeat >= REMEDY_CONFIRMATIONS;
    }

    /** Applies a remedy, unless the scene forbids it. Nothing is made of the difference. */
    method ApplyRemedy(r: Remedy, scene: Scene) returns (ran: bool)
      ensures ran <==> !scene.recovering && scene.enabled && (scene.found || r != Reattach)
    {
      ran := true;
      if scene.recovering || !scene.enabled { return false; }
      if r == Reattach && !scene.found { return false; }
    }

    /** Confirmation and cooldown for one assessment; applies the remedy and notes it. */
    method HandleAssessment(a: Assessment, now: int, scene: Scene) returns (r: Option<Remedy>)
      requires Valid() && assessor.Valid()
      modifies this, assessor
      ensures Valid() && assessor.Valid()
      ensures r == Decision(old(log), |old(log)|, a, now)
      ensures log == old(log) + [Handled(a, now, r)]
      ensures assessor.history == old(assessor.history) + if r.Some? then [Noted(a.failedLayer, r.value, Runs(r.value, scene))] else []
    {
      hide Confirmed, Repeats;
      ghost var e := Handled(a, now, Decision(log, |log|, a, now));
      LogPrefixSame(log, e, |log|);
      var confirmed := Weigh(a, e);
      log := log + [e];
      if !confirmed || (a.remedy in cooldown && now < cooldown[a.remedy]) {
        return None;
      }
      cooldown := cooldown[a.remedy := now + Cooldown(a.remedy)];
      r := Some(a.remedy);
      var ran := ApplyRemedy(a.remedy, scene);
      assessor.NoteRemedyApplied(a.failedLayer, a.remedy, ran);
    }

    /** One status check: assess, then act, unless an APN transaction is settling. */
    method Tick(cur: Snapshot, settling: bool, now: int, scene: Scene) returns (r: Option<Remedy>)
      requires Valid() && assessor.Valid()
      modifies this, assessor
      ensures Valid() && assessor.Valid()
      ensures Watch(assessor.history, log) == Ticked(old(Watch(assessor.history, log)), cur, settling, now, scene)
    {
      var a := assessor.Assess(cur);
      if settling {
        Skip();
        r := None;
      } else {
        r := HandleAssessment(a, now, scene);
      }
    }
  }

  // ----- runs -----

  /** Both histories: the assessor's and the policy's. */
  datatype Watch = Watch(history: seq<Event>, log: seq<Entry>)

  function Ticked(w: Watch, cur: Snapshot, settling: bool, now: int, scene: Scene): Watch {
    var h := w.history + [Link.Tick(cur)];
    var a := Verdict(h);
    if settling then Watch(h, w.log + [Settling])
    else
      var d := Decision(w.log, |w.log|, a, now);
      Watch(h + if d.Some? then [Noted(a.failedLayer, d.value, Runs(d.value, scene))] else [], w.log + [Handled(a, now, d)])
  }

  /** Every dispatch in the log is the policy's decision on a verdict. */
  ghost predicate Faithful(log: seq<Entry>) {
    forall i :: 0 <= i < |log| && log[i].Handled? ==>
      log[i].dispatched == Decision(log, i, log[i].a, log[i].now) && FromVerdict(log[i].a)
  }

  /** What every verdict satisfies. */
  predicate FromVerdict(a: Assessment) {
    && (!a.healthy && a.remedy == ModemReset ==> a.failedLayer == Hardware)
    && (!a.healthy && a.failedLayer == Liveness ==> a.remedy == BearerBounce || a.remedy == Reattach)
  }

  ghost predicate IsWatch(ws: seq<Watch>) {
    && ws != [] && ws[0] == Watch([], [])
    && forall i :: 0 <= i < |ws| - 1 ==> Follows(ws[i], ws[i + 1])
  }

  ghost predicate Follows(w: Watch, w': Watch) {
    exists cur, settling, now, scene :: w' == Ticked(w, cur, settling, now, scene)
  }

  lemma VerdictsAreSafe(h: seq<Event>)
    requires h != [] && h[|h| - 1].Tick?
    ensures FromVerdict(Verdict(h))
  {
    LowestFailingLayer(h[|h| - 1].snap);
  }

  lemma DecisionGrows(log: seq<Entry>, e: Entry, n: nat, a: Assessment, now: int)
    requires n <= |log|
    ensures Decision(log + [e], n, a, now) == Decision(log, n, a, now)
  {
    LogPrefixSame(log, e, n);
  }

  lemma TickKeepsFaith(w: Watch, cur: Snapshot, settling: bool, now: int, scene: Scene)
    requires Faithful(w.log)
    ensures Faithful(Ticked(w, cur, settling, now, scene).log)
  {
    hide Verdict, FromVerdict, Decision;
    var w' := Ticked(w, cur, settling, now, scene);
    var e := w'.log[|w.log|];
    VerdictsAreSafe(w.history + [Link.Tick(cur)]);
    assert w'.log == w.log + [e];
    forall i | 0 <= i < |w'.log| && w'.log[i].Handled?
      ensures w'.log[i].dispatched == Decision(w'.log, i, w'.log[i].a, w'.log[i].now) && FromVerdict(w'.log[i].a)
    {
      DecisionGrows(w.log, e, i, w'.log[i].a, w'.log[i].now);
    }
  }

  lemma NothingIsFaithful()
    ensures Faithful([])
  {
  }

  lemma {:induction false} WatchIsFaithful(ws: seq<Watch>, i: nat)
    requires IsWatch(ws) && i < |ws|
    ensures Faithful(ws[i].log)
    decreases i
  {
    hide Ticked, Faithful;
    if i == 0 {
      NothingIsFaithful();
    } else {
      WatchIsFaithful(ws, i - 1);
      assert 0 <= i - 1 < |ws| - 1;
      assert Follows(ws[i - 1], ws[i]);
      var cur, settling, now, scene :| ws[i] == Ticked(ws[i - 1], cur, settling, now, scene);
      TickKeepsFaith(ws[i - 1], cur, settling, now, scene);
    }
  }

  /** Every dispatch confirms: this tick and the one before failed at the same layer with
      a real remedy; and a modem reset answers a hardware failure only. */
  lemma DispatchIsConfirmed(log: seq<Entry>, i: nat, r: Remedy)
    requires Faithful(log) && i < |log| && Dispatches(log[i], r)
    ensures i > 0 && Actionable(log[i]) && Actionable(log[i - 1]) && log[i].a.failedLayer == log[i - 1].a.failedLayer
    ensures r == log[i].a.remedy && r != NoRemedy
    ensures r == ModemReset ==> log[i].a.failedLayer == Hardware
  {
  }

  lemma {:induction false} LastDispatchIsLatest(log: seq<Entry>, n: nat, i: nat, r: Remedy)
    requires Faithful(log) && r != NoRemedy && i < n <= |log| && Dispatches(log[i], r)
    ensures LastDispatch(log, n, r).Some? && LastDispatch(log, n, r).value >= log[i].now
    decreases n
  {
    if i < n - 1 {
      LastDispatchIsLatest(log, n - 1, i, r);
      if Dispatches(log[n - 1], r) {
        assert !Cooling(log, n - 1, r, log[n - 1].now);
      }
    }
  }

  /** Two dispatches of the same remedy are at least its cooldown apart. No assumption on
      the clock is needed: a dispatch can only come at a time past the cooldown. */
  lemma CooldownApart(log: seq<Entry>, i: nat, j: nat, r: Remedy)
    requires Faithful(log) && i < j < |log| && Dispatches(log[i], r) && Dispatches(log[j], r)
    ensures log[j].now - log[i].now >= Cooldown(r)
    ensures log[j].now - log[i].now >= if r == ModemReset then 1800 else 300
  {
    DispatchIsConfirmed(log, j, r);
    LastDispatchIsLatest(log, j, i, r);
    assert !Cooling(log, j, r, log[j].now);
  }

  lemma {:induction false} LastDispatchIsOne(log: seq<Entry>, n: nat, r: Remedy)
    requires n <= |log|
    ensures LastDispatch(log, n, r).Some? ==> exists i :: 0 <= i < n && Dispatches(log[i], r) && log[i].now == LastDispatch(log, n, r).value
  {
    if n > 0 && !Dispatches(log[n - 1], r) {
      LastDispatchIsOne(log, n - 1, r);
    }
  }

  /** The assessment of a tick asks for something. */
  predicate Asks(e: Entry) {
    e.Handled? && !e.a.healthy && e.a.remedy in {Reattach, BearerBounce, ModemReset}
  }

  /** The whole policy: a tick dispatches a remedy exactly if it asks for it, the tick before
      asked for something at the same layer, and the same remedy was not dispatched in the
      last five minutes, or half hour for a modem reset. */
  lemma DispatchedIff(log: seq<Entry>, i: nat, r: Remedy)
    requires Faithful(log) && i < |log|
    ensures Dispatches(log[i], r) <==>
              && i > 0 && Asks(log[i]) && Asks(log[i - 1]) && log[i].a.remedy == r && log[i].a.failedLayer == log[i - 1].a.failedLayer
              && forall j :: 0 <= j < i && Dispatches(log[j], r) ==> log[i].now >= log[j].now + (if r == ModemReset then 1800 else 300)
  {
    if log[i].Handled? && i > 0 {
      LastDispatchIsOne(log, i, r);
      forall j | 0 <= j < i && Dispatches(log[j], r) && r != NoRemedy
        ensures LastDispatch(log, i, r).Some? && LastDispatch(log, i, r).value >= log[j].now
      {
        LastDispatchIsLatest(log, i, j, r);
      }
      hide LastDispatch;
    }
  }

  /** How many of the first `n` entries dispatch the remedy at a time from `from` to `to`. */
  function CountWithin(log: seq<Entry>, n: nat, r: Remedy, from: int, to: int): nat
    requires n <= |log|
  {
    if n == 0 then 0
    else CountWithin(log, n - 1, r, from, to) + (if DispatchesWithin(log[n - 1], r, from, to) then 1 else 0)
  }

  predicate DispatchesWithin(e: Entry, r: Remedy, from: int, to: int) {
    Dispatches(e, r) && from <= e.now <= to
  }

  /** Dispatches are spread out: the latest of those in the window is a cooldown past its
      beginning for each one before it. */
  lemma {:induction false} DispatchesSpread(log: seq<Entry>, n: nat, r: Remedy, from: int, to: int) returns (k: nat)
    requires Faithful(log) && n <= |log|
    ensures var c := CountWithin(log, n, r, from, to);
            c > 0 ==> k < n && DispatchesWithin(log[k], r, from, to) && log[k].now - from >= (c - 1) * Cooldown(r)
    decreases n
  {
    hide Faithful;
    k := 0;
    if n > 0 {
      k := DispatchesSpread(log, n - 1, r, from, to);
      if DispatchesWithin(log[n - 1], r, from, to) {
        if CountWithin(log, n - 1, r, from, to) > 0 {
          CooldownApart(log, k, n - 1, r);
        }
        k := n - 1;
      }
    }
  }

  /** At most window / cooldown + 1 dispatches of a remedy fall into any window of time:
      of modem resets, one per started half hour and one more. */
  lemma DispatchesPerWindow(log: seq<Entry>, r: Remedy, from: int, to: int)
    requires Faithful(log) && r != NoRemedy && from <= to
    ensures CountWithin(log, |log|, r, from, to) <= (to - from) / Cooldown(r) + 1
    ensures r == ModemReset ==> CountWithin(log, |log|, r, from, to) <= (to - from) / 1800 + 1
  {
    hide Faithful;
    var c := CountWithin(log, |log|, r, from, to);
    var k := DispatchesSpread(log, |log|, r, from, to);
    if c > 0 {
      QuotientBound(to - from, c - 1, Cooldown(r));
    }
  }

  lemma QuotientBound(t: int, k: nat, c: int)
    requires c > 0 && t >= k * c
    ensures t >= 0 && k <= t / c
  {
    var q := t / c;
    assert t < (q + 1) * c;
    CancelFactor(k, q + 1, c);
  }

  lemma CancelFactor(a: int, b: int, c: int)
    requires c > 0 && a * c < b * c
    ensures a < b
  {
  }

  /** Over any run of ticks: dispatches of one remedy keep its cooldown, each repeats the
      tick before it, a modem reset answers a hardware failure, and any window of time has
      at most one reset per half hour and one more. */
  lemma RunKeepsCooldowns(ws: seq<Watch>, n: nat)
    requires IsWatch(ws) && n < |ws|
    ensures forall i, j, r :: 0 <= i < j < |ws[n].log| ==> SpacedOut(ws[n].log, i, j, r)
    ensures forall from, to :: from <= to ==> CountWithin(ws[n].log, |ws[n].log|, ModemReset, from, to) <= (to - from) / 1800 + 1
  {
    hide IsWatch, Faithful, SpacedOut;
    WatchIsFaithful(ws, n);
    forall i, j, r | 0 <= i < j < |ws[n].log| ensures SpacedOut(ws[n].log, i, j, r) {
      DispatchesAreSpaced(ws[n].log, i, j, r);
    }
    forall from, to | from <= to ensures CountWithin(ws[n].log, |ws[n].log|, ModemReset, from, to) <= (to - from) / 1800 + 1 {
      DispatchesPerWindow(ws[n].log, ModemReset, from, to);
    }
  }

  /** What holds of two dispatches of one remedy. */
  predicate SpacedOut(log: seq<Entry>, i: nat, j: nat, r: Remedy)
    requires i < j < |log|
  {
    Dispatches(log[i], r) && Dispatches(log[j], r) ==>
      && log[j].now - log[i].now >= Cooldown(r)
      && Actionable(log[j - 1]) && log[j].a.failedLayer == log[j - 1].a.failedLayer
      && (r == ModemReset ==> log[j].a.failedLayer == Hardware)
  }

  lemma DispatchesAreSpaced(log: seq<Entry>, i: nat, j: nat, r: Remedy)
    requires Faithful(log) && i < j < |log|
    ensures SpacedOut(log, i, j, r)
  {
    hide Faithful;
    if Dispatches(log[i], r) && Dispatches(log[j], r) {
      CooldownApart(log, i, j, r);
      DispatchIsConfirmed(log, j, r);
    }
  }

  // ----- a flapping session is acted on -----

  /** A tick of a flapping session: it passes locally, and the session reconnected into a
      short one since the tick before. */
  predicate Flapping(h: seq<Event>, cur: Snapshot) {
    IsFlap(h + [Link.Tick(cur)], |h|)
  }

  predicate ColdFor(log: seq<Entry>, now: int) {
    !Cooling(log, |log|, BearerBounce, now) && !Cooling(log, |log|, Reattach, now)
  }

  lemma FlapCounts(w: Watch, cur: Snapshot, now: int, scene: Scene)
    requires Flapping(w.history, cur)
    ensures var w' := Ticked(w, cur, false, now, scene);
            && Flaps(w'.history) == Flaps(w.history) + 1
            && w'.log == w.log + [w'.log[|w.log|]] && w'.log[|w.log|].Handled? && w'.log[|w.log|].now == now
            && var a := w'.log[|w.log|].a;
               && (Flaps(w'.history) >= FLAPS_BEFORE_FAILING ==> !a.healthy && a.failedLayer == Liveness && (a.remedy == BearerBounce || a.remedy == Reattach))
               && w'.log[|w.log|].dispatched == Decision(w.log, |w.log|, a, now)
  {
    hide Decision, IsFlap;
    var h := w.history + [Link.Tick(cur)];
    OneMoreEvent(w.history, Link.Tick(cur));
    assert CheckLocal(cur).None? && !IsStable(h, |w.history|) by { FlapPasses(h, |w.history|); }
    var w' := Ticked(w, cur, false, now, scene);
    if w'.history != h {
      OneMoreEvent(h, w'.history[|h|]);
      assert w'.history == h + [w'.history[|h|]];
      assert !IsFlap(w'.history, |h|) && !IsStable(w'.history, |h|) by { NoteIsNoTick(w'.history, |h|); }
    }
  }

  lemma FlapPasses(h: seq<Event>, i: nat)
    requires i < |h| && IsFlap(h, i)
    ensures h[i].Tick? && CheckLocal(h[i].snap).None? && !IsStable(h, i)
  {
  }

  lemma NoteIsNoTick(h: seq<Event>, i: nat)
    requires i < |h| && h[i].Noted?
    ensures !IsFlap(h, i) && !IsStable(h, i)
  {
  }

  /** A tick that dispatches nothing leaves cold what was cold. */
  lemma StaysCold(log: seq<Entry>, e: Entry, now: int)
    requires e.Handled? && e.dispatched.None? && ColdFor(log, now)
    ensures ColdFor(log + [e], now)
  {
    LogPrefixSame(log, e, |log|);
  }

  /** Four flapping ticks in a row, with no liveness remedy cooling down at the last of
      them beforehand and no APN transaction in between, yield at least one dispatch. */
  lemma FourFlapsAct(w0: Watch, cs: seq<Snapshot>, ts: seq<int>, scenes: seq<Scene>)
    requires |cs| == |ts| == |scenes| == 4 && ColdFor(w0.log, ts[3])
    requires var w1 := Ticked(w0, cs[0], false, ts[0], scenes[0]);
             var w2 := Ticked(w1, cs[1], false, ts[1], scenes[1]);
             var w3 := Ticked(w2, cs[2], false, ts[2], scenes[2]);
             Flapping(w0.history, cs[0]) && Flapping(w1.history, cs[1]) && Flapping(w2.history, cs[2]) && Flapping(w3.history, cs[3])
    ensures var w1 := Ticked(w0, cs[0], false, ts[0], scenes[0]);
            var w2 := Ticked(w1, cs[1], false, ts[1], scenes[1]);
            var w3 := Ticked(w2, cs[2], false, ts[2], scenes[2]);
            var w4 := Ticked(w3, cs[3], false, ts[3], scenes[3]);
            exists k :: |w0.log| <= k < |w0.log| + 4 <= |w4.log| && w4.log[k].Handled? && w4.log[k].dispatched.Some?
  {
    hide Ticked, Flapping, Decision, ColdFor;
    var w1 := Ticked(w0, cs[0], false, ts[0], scenes[0]);
    var w2 := Ticked(w1, cs[1], false, ts[1], scenes[1]);
    var w3 := Ticked(w2, cs[2], false, ts[2], scenes[2]);
    var w4 := Ticked(w3, cs[3], false, ts[3], scenes[3]);
    FlapCounts(w0, cs[0], ts[0], scenes[0]);
    FlapCounts(w1, cs[1], ts[1], scenes[1]);
    FlapCounts(w2, cs[2], ts[2], scenes[2]);
    FlapCounts(w3, cs[3], ts[3], scenes[3]);
    var n := |w0.log|;
    assert w4.log[n] == w1.log[n] && w4.log[n + 1] == w2.log[n + 1] && w4.log[n + 2] == w3.log[n + 2];
    if w1.log[n].dispatched.None? && w2.log[n + 1].dispatched.None? && w3.log[n + 2].dispatched.None? {
      StaysCold(w0.log, w1.log[n], ts[3]);
      StaysCold(w1.log, w2.log[n + 1], ts[3]);
      StaysCold(w2.log, w3.log[n + 2], ts[3]);
      ConfirmedFlapActs(w3.log, w4.log[n + 3].a, ts[3]);
      assert w4.log[n + 3].dispatched.Some?;
    }
  }

  lemma ConfirmedFlapActs(log: seq<Entry>, a: Assessment, now: int)
    requires log != [] && ColdFor(log, now)
    requires !a.healthy && a.failedLayer == Liveness && (a.remedy == BearerBounce || a.remedy == Reattach)
    requires var e := log[|log| - 1];
             e.Handled? && !e.a.healthy && e.a.failedLayer == Liveness && (e.a.remedy == BearerBounce || e.a.remedy == Reattach)
    ensures Decision(log, |log|, a, now).Some?
  {
  }

  // ----- a remedy that did not run is noted all the same -----

  /** The verdict of a flapping tick. */
  lemma FlapVerdict(h: seq<Event>, cur: Snapshot)
    requires Flapping(h, cur)
    ensures var v := Verdict(h + [Link.Tick(cur)]);
            && Flaps(h + [Link.Tick(cur)]) == Flaps(h) + 1 && Escalation(h + [Link.Tick(cur)]) == Escalation(h)
            && (Flaps(h) + 1 < FLAPS_BEFORE_FAILING ==> v.healthy)
            && (Flaps(h) + 1 >= FLAPS_BEFORE_FAILING ==> v == Assessment(false, Liveness, Rung(Escalation(h)), true))
  {
    var h' := h + [Link.Tick(cur)];
    OneMoreEvent(h, Link.Tick(cur));
    FlapPasses(h', |h|);
    hide IsFlap, IsStable;
    PassingVerdict(h');
  }

  lemma {:induction false} NeverDispatched(log: seq<Entry>, n: nat, r: Remedy)
    requires n <= |log| && forall i :: 0 <= i < n ==> !Dispatches(log[i], r)
    ensures LastDispatch(log, n, r).None?
  {
    if n > 0 {
      NeverDispatched(log, n - 1, r);
    }
  }

  const BUSY := Scene(true, true, true)
  const FREE := Scene(false, true, true)

  function Session(attempts: nat, duration: nat): Snapshot {
    SessionTick(true, attempts, duration).snap
  }

  lemma SessionFlaps(h: seq<Event>, attempts: nat, last: Snapshot)
    requires LastTick(h, |h|) == Some(last) && last.bearerSessionKnown && last.bearerAttempts < attempts
    ensures Flapping(h, Session(attempts, 5))
  {
    SessionTickPasses(true, attempts, 5);
    PrefixSame(h, Link.Tick(Session(attempts, 5)), |h|);
    hide CheckLocal;
  }

  /** A flapping tick after one that needed no remedy is not acted on. */
  lemma QuietFlap(w: Watch, last: Snapshot, attempts: nat, now: int) returns (w': Watch)
    requires LastTick(w.history, |w.history|) == Some(last) && last.bearerSessionKnown && last.bearerAttempts < attempts
    requires w.log == [] || !Actionable(w.log[|w.log| - 1])
    ensures w' == Ticked(w, Session(attempts, 5), false, now, FREE)
    ensures w'.history == w.history + [SessionTick(true, attempts, 5)]
    ensures LastTick(w'.history, |w'.history|) == Some(Session(attempts, 5))
    ensures Flaps(w'.history) == Flaps(w.history) + 1 && Escalation(w'.history) == Escalation(w.history)
    ensures exists e :: w'.log == w.log + [e] && e.Handled? && e.dispatched == None &&
              if Flaps(w'.history) < FLAPS_BEFORE_FAILING then e.a.healthy
              else e.a == Assessment(false, Liveness, Rung(Escalation(w.history)), true)
  {
    var cur := Session(attempts, 5);
    SessionFlaps(w.history, attempts, last);
    FlapVerdict(w.history, cur);
    hide Verdict, Flapping, CheckLocal;
    w' := Ticked(w, cur, false, now, FREE);
    assert w'.log == w.log + [w'.log[|w.log|]];
  }

  /** A flapping tick after one that failed the same way is acted on, if its remedy is cold. */
  lemma ActedFlap(w: Watch, last: Snapshot, attempts: nat, now: int, scene: Scene) returns (w': Watch)
    requires LastTick(w.history, |w.history|) == Some(last) && last.bearerSessionKnown && last.bearerAttempts < attempts
    requires w.log != [] && Actionable(w.log[|w.log| - 1]) && w.log[|w.log| - 1].a.failedLayer == Liveness
    requires Flaps(w.history) + 1 >= FLAPS_BEFORE_FAILING && LastDispatch(w.log, |w.log|, Rung(Escalation(w.history))).None?
    ensures w' == Ticked(w, Session(attempts, 5), false, now, scene)
    ensures var r := Rung(Escalation(w.history));
            && w'.history == w.history + [SessionTick(true, attempts, 5), Noted(Liveness, r, Runs(r, scene))]
            && w'.log == w.log + [Handled(Assessment(false, Liveness, r, true), now, Some(r))]
    ensures LastTick(w'.history, |w'.history|) == Some(Session(attempts, 5))
    ensures Flaps(w'.history) == Flaps(w.history) + 1 && Escalation(w'.history) == Escalation(w.history) + 1
  {
    hide Verdict, Flapping, CheckLocal, IsFlap, IsStable, Flaps, Escalation, Decision, LastTick, LastDispatch;
    var cur, r := Session(attempts, 5), Rung(Escalation(w.history));
    var note := Noted(Liveness, r, Runs(r, scene));
    SessionFlaps(w.history, attempts, last);
    FlapVerdict(w.history, cur);
    var h := TickAndNote(w.history, cur, note);
    ColdIsDecided(w.log, Verdict(h), now);
    w' := Ticked(w, cur, false, now, scene);
    assert w'.history == h + [note];
  }

  lemma TickAndNote(h0: seq<Event>, cur: Snapshot, note: Event) returns (h: seq<Event>)
    requires note.Noted? && Flapping(h0, cur)
    ensures h == h0 + [Link.Tick(cur)]
    ensures h + [note] == h0 + [Link.Tick(cur), note] && LastTick(h + [note], |h| + 1) == Some(cur)
    ensures Flaps(h + [note]) == Flaps(h0) + 1
    ensures Escalation(h + [note]) == Escalation(h0) + if IsLivenessRemedy(note) then 1 else 0
  {
    h := h0 + [Link.Tick(cur)];
    FlapVerdict(h0, cur);
    NoteChanges(h, note);
    assert (h + [note])[|h|] == note && (h + [note])[|h0|] == Link.Tick(cur);
    hide Verdict, Flapping, CheckLocal, IsFlap, IsStable, Flaps, Escalation;
  }

  lemma NoteChanges(h: seq<Event>, e: Event)
    requires e.Noted?
    ensures Flaps(h + [e]) == Flaps(h)
    ensures Escalation(h + [e]) == Escalation(h) + if IsLivenessRemedy(e) then 1 else 0
  {
    OneMoreEvent(h, e);
    NoteIsNoTick(h + [e], |h|);
  }

  lemma ColdIsDecided(log: seq<Entry>, a: Assessment, now: int)
    requires log != [] && Actionable(log[|log| - 1]) && log[|log| - 1].a.failedLayer == a.failedLayer
    requires !a.healthy && a.remedy != NoRemedy && LastDispatch(log, |log|, a.remedy).None?
    ensures Decision(log, |log|, a, now) == Some(a.remedy)
  {
  }

  lemma FirstTick() returns (w': Watch)
    ensures w' == Ticked(Watch([], []), Session(1, 200), false, 0, FREE)
    ensures w'.history == [SessionTick(true, 1, 200)] && LastTick(w'.history, 1) == Some(Session(1, 200))
    ensures Flaps(w'.history) == 0 && Escalation(w'.history) == 0
    ensures |w'.log| == 1 && w'.log[0].Handled? && w'.log[0].a.healthy && w'.log[0].dispatched == None
  {
    var h := [] + [SessionTick(true, 1, 200)];
    SessionTickPasses(true, 1, 200);
    assert Flaps([]) == 0 && Escalation([]) == 0;
    OneMoreEvent([], SessionTick(true, 1, 200));
    assert !IsFlap(h, 0) && !IsStable(h, 0);
    PassingVerdict(h);
    hide CheckLocal, Verdict;
    w' := Ticked(Watch([], []), Session(1, 200), false, 0, FREE);
    assert w'.history == h;
  }

  lemma {:induction false} NothingRan(h: seq<Event>, from: nat, n: nat)
    requires n <= |h| && forall i :: 0 <= i < n && h[i].Noted? ==> !h[i].ran
    ensures CountRan(h, from, n) == 0
  {
    if n > from {
      NothingRan(h, from, n - 1);
    }
  }

  lemma WatchStarts()
    ensures IsWatch([Watch([], [])])
  {
  }

  lemma WatchGrows(ws: seq<Watch>, cur: Snapshot, now: int, scene: Scene) returns (ws': seq<Watch>)
    requires IsWatch(ws)
    ensures ws' == ws + [Ticked(ws[|ws| - 1], cur, false, now, scene)] && IsWatch(ws')
  {
    hide Ticked;
    ws' := ws + [Ticked(ws[|ws| - 1], cur, false, now, scene)];
    assert Follows(ws[|ws| - 1], ws'[|ws|]);
    hide Follows;
    assert forall i :: 0 <= i < |ws| ==> ws'[i] == ws[i];
  }

  /** Three flaps make a failure; nothing has been done about it yet. */
  lemma FailureReported() returns (ws: seq<Watch>)
    ensures IsWatch(ws) && |ws| == 5
    ensures var w := ws[4];
            && LastTick(w.history, |w.history|) == Some(Session(4, 5)) && Flaps(w.history) == 3 && Escalation(w.history) == 0
            && (forall i :: 0 <= i < |w.history| ==> w.history[i].Tick?)
            && |w.log| == 4 && (forall i, r :: 0 <= i < 4 ==> !Dispatches(w.log[i], r))
            && Actionable(w.log[3]) && w.log[3].a.failedLayer == Liveness
  {
    hide Ticked, Verdict, Flaps, Escalation, LastTick, IsWatch;
    WatchStarts();
    var w1 := FirstTick();
    ws := WatchGrows([Watch([], [])], Session(1, 200), 0, FREE);
    var w2 := QuietFlap(w1, Session(1, 200), 2, 10);
    ws := WatchGrows(ws, Session(2, 5), 10, FREE);
    var w3 := QuietFlap(w2, Session(2, 5), 3, 20);
    ws := WatchGrows(ws, Session(3, 5), 20, FREE);
    var w4 := QuietFlap(w3, Session(3, 5), 4, 30);
    ws := WatchGrows(ws, Session(4, 5), 30, FREE);
    assert ws[4] == w4;
  }

  /** The failing case, over six ticks of a flapping session: the bearer bounce is noted
      while a recovery keeps it from running, and the next tick dispatches the costlier
      reattach, though nothing cheaper was tried. A recovery under way from the beginning of
      a tick makes its APN reconcile fail and the tick settle, if the SIM is readable; so
      this one begins between the reconcile and the remedy, or the ICCID is unread. */
  lemma UnearnedReattach() returns (ws: seq<Watch>)
    ensures IsWatch(ws) && |ws| == 7
    ensures Escalation(ws[5].history) == 1 && Ran(ws[5].history) == 0
    ensures |ws[6].log| == 6 && Dispatches(ws[6].log[5], Reattach)
  {
    hide Ticked, Verdict, Flaps, Escalation, LastTick, LastDispatch, IsWatch;
    ws := FailureReported();
    var w4 := ws[4];
    NeverDispatched(w4.log, 4, BearerBounce);
    var w5 := ActedFlap(w4, Session(4, 5), 5, 40, BUSY);
    ws := WatchGrows(ws, Session(5, 5), 40, BUSY);
    NeverDispatched(w5.log, 5, Reattach);
    var w6 := ActedFlap(w5, Session(5, 5), 6, 50, FREE);
    ws := WatchGrows(ws, Session(6, 5), 50, FREE);
    NothingRan(w5.history, SinceStable(w5.history, |w5.history|), |w5.history|);
  }
}

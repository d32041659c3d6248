/** The connectivity classifier: hysteresis over timed runs of raw states. */
module Connectivity {
  import opened Wrappers

  datatype State = Unknown | Connected | Disconnected | Disabled | NoSIM | Denied | Failed

  /** Seconds. */
  const ONLINE_DEBOUNCE: int := 60
  const OFFLINE_DEBOUNCE: int := 180
  const DENIED_DEBOUNCE: int := 60

  datatype Inputs = Inputs(modemStatus: string, simState: string, registration: string, enabled: bool, hardFailed: bool)

  /** The one state an observation shows, whatever its other parts say. */
  predicate Shows(i: Inputs, s: State) {
    var unable := !i.enabled || i.hardFailed;
    var simless := i.simState in {"missing", "inactive"};
    var refused := i.registration in {"denied", "failed"};
    match s
    case Unknown => false
    case Disabled => !i.enabled
    case Failed => i.enabled && i.hardFailed
    case NoSIM => !unable && simless
    case Denied => !unable && !simless && refused
    case Connected => !unable && !simless && !refused && i.modemStatus == "connected"
    case Disconnected => !unable && !simless && !refused && i.modemStatus != "connected"
  }

  /** What one observation says, the surest evidence first. */
  function RawState(i: Inputs): (s: State)
    ensures forall t :: Shows(i, t) <==> t == s
  {
    if !i.enabled then Disabled
    else if i.hardFailed then Failed
    else if i.simState == "missing" || i.simState == "inactive" then NoSIM
    else if i.registration == "denied" || i.registration == "failed" then Denied
    else if i.modemStatus == "connected" then Connected
    else Disconnected
  }

  lemma RawIsKnown(i: Inputs)
    ensures RawState(i) != Unknown && Shows(i, RawState(i))
  {
    assert Shows(i, RawState(i));
  }

  /** How long `to` must persist before it replaces `from`. */
  function CommitDelay(from: State, to: State): int {
    match to
    case Denied => DENIED_DEBOUNCE
    case Connected => ONLINE_DEBOUNCE
    case Disconnected => if from == Connected then OFFLINE_DEBOUNCE else 0
    case _ => 0
  }

  /** One observation, with what was seen, or an override, with nothing; when it happened,
      and what was committed after it. */
  datatype Entry = Entry(seen: Option<Inputs>, raw: State, at: int, committed: State) {
    predicate Forced() { seen.None? }

    predicate Genuine() { seen.Some? ==> Shows(seen.value, raw) }
  }

  /** Where the maximal run of equal raw states that ends the first `n` entries begins.
      An override always begins a run. */
  function RunStart(log: seq<Entry>, n: nat): (k: nat)
    requires 0 < n <= |log|
    ensures k < n
    ensures forall i :: k <= i < n ==> log[i].raw == log[n - 1].raw
    ensures forall i :: k < i < n ==> !log[i].Forced()
    ensures k > 0 ==> log[k - 1].raw != log[n - 1].raw || log[k].Forced()
  {
    if n > 1 && log[n - 2].raw == log[n - 1].raw && !log[n - 1].Forced() then RunStart(log, n - 1) else n - 1
  }

  function Before(log: seq<Entry>, i: nat): State
    requires i <= |log|
  {
    if i == 0 then Unknown else log[i - 1].committed
  }

  /** What hysteresis owes entry `i`: an override or the first state is taken at once;
      another raw state once its run has lasted its delay. */
  function Owed(log: seq<Entry>, i: nat): State
    requires i < |log|
  {
    var e, before := log[i], Before(log, i);
    if e.Forced() || before == Unknown then e.raw
    else if e.at - log[RunStart(log, i + 1)].at >= CommitDelay(before, e.raw) then e.raw
    else before
  }

  ghost predicate Faithful(log: seq<Entry>) {
    forall i :: 0 <= i < |log| ==> log[i].committed == Owed(log, i) && log[i].Genuine()
  }

  ghost predicate Ordered(log: seq<Entry>) {
    forall i, j :: 0 <= i <= j < |log| ==> log[i].at <= log[j].at
  }

  lemma {:induction false} RunStartSame(log: seq<Entry>, log': seq<Entry>, n: nat)
    requires 0 < n <= |log| && n <= |log'|
    requires forall i :: 0 <= i < n ==> log[i].raw == log'[i].raw && log[i].Forced() == log'[i].Forced()
    ensures RunStart(log, n) == RunStart(log', n)
  {
    if n > 1 {
      RunStartSame(log, log', n - 1);
    }
  }

  lemma AppendFaithful(log: seq<Entry>, e: Entry)
    requires Faithful(log) && e.committed == Owed(log + [e], |log|) && e.Genuine()
    ensures Faithful(log + [e])
  {
    var log' := log + [e];
    hide Owed;
    forall i | 0 <= i < |log'| ensures log'[i].committed == Owed(log', i) && log'[i].Genuine() {
      if i < |log| {
        OwedSame(log, e, i);
      }
    }
  }

  lemma OwedSame(log: seq<Entry>, e: Entry, i: nat)
    requires i < |log|
    ensures Owed(log + [e], i) == Owed(log, i)
  {
    RunStartSame(log, log + [e], i + 1);
    hide RunStart;
  }

  lemma Decided(log: seq<Entry>, i: nat)
    requires Faithful(log) && i < |log|
    ensures log[i].committed == Owed(log, i)
  {
  }

  lemma RunGoesOn(log: seq<Entry>, e: Entry)
    ensures RunStart(log + [e], |log| + 1)
         == if log != [] && log[|log| - 1].raw == e.raw && !e.Forced() then RunStart(log, |log|) else |log|
  {
    if log != [] {
      RunStartSame(log + [e], log, |log|);
    }
  }

  /** Only an override leaves the committed state unknown, so the observation after it begins a run. */
  lemma UnknownOnlyForced(log: seq<Entry>)
    requires Faithful(log) && log != [] && log[|log| - 1].committed == Unknown
    ensures log[|log| - 1].Forced() && log[|log| - 1].raw == Unknown
  {
    assert log[|log| - 1].committed == Owed(log, |log| - 1);
  }

  class Classifier {
    var committed: State
    var pending: State
    var pendingSince: int
    ghost var log: seq<Entry>

    ghost predicate Valid()
      reads this
    {
      && Faithful(log)
      && committed == Before(log, |log|)
      && (log == [] ==> pending == Unknown)
      && (log != [] ==> pending == log[|log| - 1].raw && pendingSince == log[RunStart(log, |log|)].at)
    }

    constructor ()
      ensures Valid() && log == []
    {
      committed, pending, pendingSince, log := Unknown, Unknown, 0, [];
    }

    /** Folds the inputs into the committed state. */
    method Classify(inputs: Inputs, now: int) returns (s: State)
      requires Valid()
      modifies this
      ensures Valid() && s == committed
      ensures exists raw :: Shows(inputs, raw) && log == old(log) + [Entry(Some(inputs), raw, now, s)]
    {
      hide RawState, Faithful, Shows, RunStart;
      var raw := RawState(inputs);
      RawIsKnown(inputs);
      ghost var log0, before := log, committed;
      if committed == Unknown {
        committed, pending, pendingSince := raw, raw, now;
      } else {
        if raw != pending {
          pending, pendingSince := raw, now;
        }
        if raw != committed && now - pendingSince >= CommitDelay(committed, raw) {
          committed := raw;
        }
      }
      log := log0 + [Entry(Some(inputs), raw, now, committed)];
      RunGoesOn(log0, log[|log0|]);
      if log0 != [] && before == Unknown {
        UnknownOnlyForced(log0);
      }
      assert log[|log0|].committed == Owed(log, |log0|);
      AppendFaithful(log0, log[|log0|]);
      s := committed;
    }

    /** Overrides the committed state, when the modem is powered off out of band. */
    method Force(s: State, now: int)
      requires Valid()
      modifies this
      ensures Valid() && committed == s
      ensures log == old(log) + [Entry(None, s, now, s)]
    {
      ghost var log0 := log;
      committed, pending, pendingSince := s, s, now;
      log := log0 + [Entry(None, s, now, s)];
      RunGoesOn(log0, log[|log0|]);
      AppendFaithful(log0, log[|log0|]);
    }
  }

  /** From entry `k` to entry `i` the raw state was `s` throughout, with no override in between,
      for at least `d` seconds. */
  ghost predicate Held(log: seq<Entry>, k: nat, i: nat, s: State, d: int) {
    && k <= i < |log|
    && (forall j :: k <= j <= i ==> log[j].raw == s)
    && (forall j :: k < j <= i ==> !log[j].Forced())
    && log[i].at - log[k].at >= d
  }

  lemma RunReachesBack(log: seq<Entry>, k: nat, i: nat)
    requires k <= i < |log|
    requires forall j :: k <= j <= i ==> log[j].raw == log[i].raw
    requires forall j :: k < j <= i ==> !log[j].Forced()
    ensures RunStart(log, i + 1) <= k
  {
    var start := RunStart(log, i + 1);
    assert start > 0 ==> log[start - 1].raw != log[i].raw || log[start].Forced();
  }

  /** Outside startup and overrides, the committed state changes to `s` exactly when the raw
      state has been `s` without interruption for the delay of that change. */
  lemma ChangesExactlyWhenHeld(log: seq<Entry>, i: nat, s: State)
    requires Faithful(log) && Ordered(log) && i < |log| && !log[i].Forced()
    requires Before(log, i) != Unknown && s != Before(log, i)
    ensures log[i].committed == s <==> exists k: nat :: Held(log, k, i, s, CommitDelay(Before(log, i), s))
  {
    hide Faithful;
    Decided(log, i);
    var delay := CommitDelay(Before(log, i), s);
    assert log[i].committed == s <==> log[i].raw == s && log[i].at - log[RunStart(log, i + 1)].at >= delay;
    hide Held;
    if log[i].committed == s {
      RunIsHeld(log, i, delay);
    }
    if k: nat :| Held(log, k, i, s, delay) {
      HeldSinceStart(log, k, i, s, delay);
    }
  }

  lemma RunIsHeld(log: seq<Entry>, i: nat, d: int)
    requires i < |log| && log[i].at - log[RunStart(log, i + 1)].at >= d
    ensures Held(log, RunStart(log, i + 1), i, log[i].raw, d)
  {
  }

  lemma HeldSinceStart(log: seq<Entry>, k: nat, i: nat, s: State, d: int)
    requires Ordered(log) && Held(log, k, i, s, d)
    ensures log[i].raw == s && log[i].at - log[RunStart(log, i + 1)].at >= d
  {
    RunReachesBack(log, k, i);
    assert log[RunStart(log, i + 1)].at <= log[k].at;
  }

  /** Going online takes a minute of uninterrupted raw connection, going offline from a
      connection three minutes of uninterrupted raw disconnection. */
  lemma DebouncesHold(log: seq<Entry>, i: nat)
    requires Faithful(log) && Ordered(log) && i < |log| && !log[i].Forced() && Before(log, i) != Unknown
    ensures log[i].committed == Connected && Before(log, i) != Connected ==>
              exists k: nat :: Held(log, k, i, Connected, 60)
    ensures log[i].committed == Disconnected && Before(log, i) == Connected ==>
              exists k: nat :: Held(log, k, i, Disconnected, 180)
  {
    if log[i].committed != Before(log, i) {
      ChangesExactlyWhenHeld(log, i, log[i].committed);
    }
  }

  // ----- in terms of what was observed -----

  /** From entry `k` to entry `i`, for at least `d` seconds, there was no override and every
      observation showed `s`. */
  ghost predicate Shown(log: seq<Entry>, k: nat, i: nat, s: State, d: int) {
    && k <= i < |log| && log[i].at - log[k].at >= d
    && forall j :: k <= j <= i ==> log[j].seen.Some? && Shows(log[j].seen.value, s)
  }

  /** How long a state must be shown to replace `before`: a minute for a connection or a denial,
      three minutes for the loss of a connection, and anything else at once. */
  function SecondsFor(s: State, before: State): int {
    if s == Connected || s == Denied then 60 else if s == Disconnected && before == Connected then 180 else 0
  }

  lemma ShownIsHeld(log: seq<Entry>, k: nat, i: nat, s: State, d: int)
    requires Faithful(log)
    ensures Shown(log, k, i, s, d) ==> Held(log, k, i, s, d)
    ensures Held(log, k, i, s, d) && !log[k].Forced() ==> Shown(log, k, i, s, d)
  {
    hide Faithful, Shows;
    forall j | 0 <= j < |log| && log[j].seen.Some? ensures Shows(log[j].seen.value, s) <==> log[j].raw == s {
      SeenIsRaw(log, j, s);
    }
  }

  lemma SeenIsRaw(log: seq<Entry>, j: nat, s: State)
    requires Faithful(log) && j < |log| && log[j].seen.Some?
    ensures Shows(log[j].seen.value, s) <==> log[j].raw == s
  {
    hide Owed;
    assert log[j].Genuine();
    hide Faithful;
    ShowsOne(log[j].seen.value, log[j].raw, s);
  }

  lemma ShowsOne(i: Inputs, a: State, b: State)
    requires Shows(i, a)
    ensures Shows(i, b) <==> a == b
  {
    hide Shows;
    assert Shows(i, a) <==> RawState(i) == a;
    assert Shows(i, b) <==> RawState(i) == b;
  }

  /** Held from an override on, the state would have been committed all along. */
  lemma NotHeldFromOverride(log: seq<Entry>, k: nat, i: nat, s: State, d: int)
    requires Faithful(log) && Held(log, k, i, s, d) && s != Before(log, i) && !log[i].Forced()
    ensures !log[k].Forced()
  {
    hide Faithful;
    if log[k].Forced() {
      Decided(log, k);
      assert k < i && log[k].committed == s;
      CommittedStays(log, k, i - 1);
    }
  }

  /** What is committed, in terms of what was observed. The first observation is taken at once,
      and so is the first after an override to the unknown state. From then on a state is
      committed exactly when every observation showed it, without interruption, for its time. */
  lemma CommitsWhatWasShown(log: seq<Entry>, i: nat, s: State)
    requires Faithful(log) && Ordered(log) && i < |log| && log[i].seen.Some? && s != Before(log, i)
    ensures log[i].committed == s <==>
            if Before(log, i) == Unknown then Shows(log[i].seen.value, s)
            else exists k: nat :: Shown(log, k, i, s, SecondsFor(s, Before(log, i)))
  {
    var d := SecondsFor(s, Before(log, i));
    hide Faithful, Shown, Held, Owed, Shows;
    if Before(log, i) == Unknown {
      FirstIsTaken(log, i, s);
    } else {
      ChangesExactlyWhenHeld(log, i, s);
      assert CommitDelay(Before(log, i), s) == d;
      if k: nat :| Held(log, k, i, s, d) {
        HeldIsInside(log, k, i, s, d);
        NotHeldFromOverride(log, k, i, s, d);
        ShownIsHeld(log, k, i, s, d);
      }
      if k: nat :| Shown(log, k, i, s, d) {
        ShownIsHeld(log, k, i, s, d);
      }
    }
  }

  lemma HeldIsInside(log: seq<Entry>, k: nat, i: nat, s: State, d: int)
    requires Held(log, k, i, s, d)
    ensures k <= i < |log|
  {
  }

  lemma FirstIsTaken(log: seq<Entry>, i: nat, s: State)
    requires Faithful(log) && i < |log| && log[i].seen.Some? && Before(log, i) == Unknown
    ensures log[i].committed == s <==> Shows(log[i].seen.value, s)
  {
    hide Faithful, Shows;
    Decided(log, i);
    SeenIsRaw(log, i, s);
  }

  /** Whatever was committed before, three minutes of one raw state commit it. */
  lemma HeldLongIsCommitted(log: seq<Entry>, k: nat, i: nat, s: State)
    requires Faithful(log) && Ordered(log) && Held(log, k, i, s, 180)
    ensures log[i].committed == s
  {
    hide Faithful;
    Decided(log, i);
    RunReachesBack(log, k, i);
    assert log[RunStart(log, i + 1)].at <= log[k].at;
  }

  /** A committed state stays while the raw state repeats it. */
  lemma {:induction false} CommittedStays(log: seq<Entry>, i: nat, j: nat)
    requires Faithful(log) && i <= j < |log|
    requires forall n :: i < n <= j ==> log[n].raw == log[i].committed && !log[n].Forced()
    ensures log[j].committed == log[i].committed
  {
    hide Faithful;
    if i < j {
      CommittedStays(log, i, j - 1);
      Decided(log, j);
    }
  }

  /** Entry `j` is an observation that moves the committed state to Connected. */
  predicate MovesOnline(log: seq<Entry>, j: nat)
    requires j < |log|
  {
    log[j].committed == Connected && !log[j].Forced() && Before(log, j) != Connected && Before(log, j) != Unknown
  }

  /** However the raw state flaps, two separate moves to Connected are at least a minute apart. */
  lemma OnlineMovesApart(log: seq<Entry>, i: nat, j: nat)
    requires Faithful(log) && Ordered(log) && i < j < |log|
    ensures (log[i].committed == Connected && MovesOnline(log, j)) ==> log[j].at - log[i].at >= 60
  {
    hide Faithful;
    if log[i].committed != Connected || !MovesOnline(log, j) { return; }
    DebouncesHold(log, j);
    var k: nat :| Held(log, k, j, Connected, 60);
    if k <= i {
      CommittedStays(log, i, j - 1);
      assert false;
    }
    assert log[i].at <= log[k].at;
  }
}

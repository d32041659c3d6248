/** The link assessor: the lowest failing local layer, and liveness from the history of
    data sessions. */
module Link {
  import opened Wrappers

  datatype Layer = Hardware | SIM | Registration | PacketService | APN | Bearer | Netdev | Liveness {
    function Rung(): nat {
      match this
      case Hardware => 0
      case SIM => 1
      case Registration => 2
      case PacketService => 3
      case APN => 4
      case Bearer => 5
      case Netdev => 6
      case Liveness => 7
    }
  }

  datatype Remedy = NoRemedy | Reattach | BearerBounce | ModemReset

  const STABLE_SESSION_SECONDS: nat := 120
  const FLAPS_BEFORE_FAILING: nat := 3
  const LIVENESS_LADDER: seq<Remedy> := [BearerBounce, Reattach]

  /** One observation. An empty string, or a field whose "known" flag is false, was not read. */
  datatype Snapshot = Snapshot(
    modemPresent: bool, primaryPortKnown: bool, primaryPortOK: bool, powerState: string,
    simLock: string, registration: string, packetService: string,
    bearerKnown: bool, bearerConnected: bool, bearerConnectedKnown: bool, bearerSuspended: bool, bearerSuspendedKnown: bool,
    bearerIPKnown: bool, bearerIP: string, bearerSessionKnown: bool, bearerAttempts: nat, bearerDuration: nat,
    atChecked: bool, cgactActive: bool, cgpaddr: string,
    carrierKnown: bool, carrier: bool, netdevIP: string, defaultRouteKnown: bool, hasDefaultRoute: bool)

  datatype Assessment = Assessment(healthy: bool, failedLayer: Layer, remedy: Remedy, wantATCheck: bool)

  datatype Failure = Failure(layer: Layer, remedy: Remedy)

  /** The local check, layer by layer from below. */
  function CheckLocal(s: Snapshot): Option<Failure> {
    if !s.modemPresent then Some(Failure(Hardware, ModemReset))
    else if s.primaryPortKnown && !s.primaryPortOK then Some(Failure(Hardware, ModemReset))
    else if s.powerState != "" && s.powerState != "on" then Some(Failure(Hardware, ModemReset))
    else if s.simLock != "" && s.simLock != "sim-pin2" && s.simLock != "sim-puk2" then Some(Failure(SIM, NoRemedy))
    else if s.registration != "" && s.registration != "home" && s.registration != "roaming" then Some(Failure(Registration, NoRemedy))
    else if s.packetService == "detached" then Some(Failure(PacketService, Reattach))
    else if s.bearerKnown && s.bearerConnectedKnown && !s.bearerConnected then Some(Failure(Bearer, BearerBounce))
    else if s.bearerKnown && s.bearerSuspendedKnown && s.bearerSuspended then Some(Failure(Bearer, BearerBounce))
    else if s.bearerKnown && s.bearerConnected && s.bearerIPKnown && s.bearerIP == "" then Some(Failure(Bearer, BearerBounce))
    else if s.atChecked && !s.cgactActive then Some(Failure(Bearer, BearerBounce))
    else if s.atChecked && s.bearerIPKnown && s.cgpaddr != "" && s.cgpaddr != s.bearerIP then Some(Failure(Bearer, BearerBounce))
    else if s.carrierKnown && !s.carrier then Some(Failure(Netdev, BearerBounce))
    else if s.defaultRouteKnown && !s.hasDefaultRoute then Some(Failure(Netdev, BearerBounce))
    else if s.bearerIPKnown && s.netdevIP != "" && s.netdevIP != s.bearerIP then Some(Failure(Netdev, BearerBounce))
    else None
  }

  predicate Suspicious(s: Snapshot) {
    || (s.bearerKnown && ((s.bearerConnectedKnown && !s.bearerConnected) || (s.bearerSuspendedKnown && s.bearerSuspended)))
    || s.packetService == "detached"
    || (s.netdevIP != "" && s.bearerIP != "" && s.netdevIP != s.bearerIP)
  }

  /** A reconnect into a session that has not lasted yet. */
  predicate SessionFlapped(prev: Snapshot, cur: Snapshot) {
    && prev.bearerSessionKnown && cur.bearerSessionKnown
    && cur.bearerAttempts > prev.bearerAttempts
    && cur.bearerDuration < STABLE_SESSION_SECONDS
  }

  // ----- what the local check means -----

  /** What a layer's failure is evidence of, layer by layer. */
  predicate Fails(s: Snapshot, l: Layer) {
    match l
    case Hardware => !s.modemPresent || (s.primaryPortKnown && !s.primaryPortOK) || s.powerState !in {"", "on"}
    case SIM => s.simLock !in {"", "sim-pin2", "sim-puk2"}
    case Registration => s.registration !in {"", "home", "roaming"}
    case PacketService => s.packetService == "detached"
    case APN => false
    case Bearer =>
      || (s.bearerKnown && s.bearerConnectedKnown && !s.bearerConnected)
      || (s.bearerKnown && s.bearerSuspendedKnown && s.bearerSuspended)
      || (s.bearerKnown && s.bearerConnected && s.bearerIPKnown && s.bearerIP == "")
      || (s.atChecked && (!s.cgactActive || (s.bearerIPKnown && s.cgpaddr !in {"", s.bearerIP})))
    case Netdev =>
      || (s.carrierKnown && !s.carrier)
      || (s.defaultRouteKnown && !s.hasDefaultRoute)
      || (s.bearerIPKnown && s.netdevIP !in {"", s.bearerIP})
    case Liveness => false
  }

  /** What is done about a layer, if anything is. */
  function RemedyFor(l: Layer): Remedy {
    match l
    case Hardware => ModemReset
    case PacketService => Reattach
    case Bearer => BearerBounce
    case Netdev => BearerBounce
    case _ => NoRemedy
  }

  /** The local check reports exactly the lowest failing layer, with that layer's
      remedy; only the hardware layer ever asks for a modem reset. */
  lemma LowestFailingLayer(s: Snapshot)
    ensures CheckLocal(s).None? <==> forall l :: !Fails(s, l)
    ensures CheckLocal(s).Some? ==>
              var f := CheckLocal(s).value;
              && Fails(s, f.layer) && f.remedy == RemedyFor(f.layer)
              && forall l: Layer :: l.Rung() < f.layer.Rung() ==> !Fails(s, l)
  {
    if CheckLocal(s).None? {
      forall l ensures !Fails(s, l) {
        match l
        case _ =>
      }
    } else {
      var f := CheckLocal(s).value;
      assert Fails(s, f.layer);
      forall l: Layer | l.Rung() < f.layer.Rung() ensures !Fails(s, l) {
        match l
        case _ =>
      }
    }
  }

  // ----- liveness over a history -----

  /** A tick, or a remedy noted as applied; `ran` says whether it was in fact carried out. */
  datatype Event = Tick(snap: Snapshot) | Noted(layer: Layer, remedy: Remedy, ran: bool)

  /** The snapshot of the last tick among the first `n` events. */
  function LastTick(h: seq<Event>, n: nat): Option<Snapshot>
    requires n <= |h|
  {
    if n == 0 then None else if h[n - 1].Tick? then Some(h[n - 1].snap) else LastTick(h, n - 1)
  }

  /** The i-th event is a locally passing tick that follows another. */
  predicate PassingTick(h: seq<Event>, i: nat)
    requires i < |h|
  {
    h[i].Tick? && CheckLocal(h[i].snap).None? && LastTick(h, i).Some?
  }

  predicate IsFlap(h: seq<Event>, i: nat)
    requires i < |h|
  {
    PassingTick(h, i) && SessionFlapped(LastTick(h, i).value, h[i].snap)
  }

  predicate IsStable(h: seq<Event>, i: nat)
    requires i < |h|
  {
    PassingTick(h, i) && !IsFlap(h, i) && h[i].snap.bearerSessionKnown && h[i].snap.bearerDuration >= STABLE_SESSION_SECONDS
  }

  /** A liveness remedy was noted as applied. */
  predicate IsLivenessRemedy(e: Event) {
    e.Noted? && e.layer == Liveness && e.remedy != NoRemedy
  }

  /** Where the events since the last stable tick begin. */
  function SinceStable(h: seq<Event>, n: nat): (k: nat)
    requires n <= |h|
    ensures k <= n
    ensures k > 0 ==> IsStable(h, k - 1)
    ensures forall i :: k <= i < n ==> !IsStable(h, i)
  {
    if n == 0 then 0 else if IsStable(h, n - 1) then n else SinceStable(h, n - 1)
  }

  function CountFlaps(h: seq<Event>, from: nat, n: nat): nat
    requires n <= |h|
  {
    if n <= from then 0 else CountFlaps(h, from, n - 1) + (if IsFlap(h, n - 1) then 1 else 0)
  }

  function CountRemedies(h: seq<Event>, from: nat, n: nat): nat
    requires n <= |h|
  {
    if n <= from then 0 else CountRemedies(h, from, n - 1) + (if IsLivenessRemedy(h[n - 1]) then 1 else 0)
  }

  /** Short-lived sessions, and liveness remedies noted, since the last stable tick. */
  function Flaps(h: seq<Event>): nat {
    CountFlaps(h, SinceStable(h, |h|), |h|)
  }

  function Escalation(h: seq<Event>): nat {
    CountRemedies(h, SinceStable(h, |h|), |h|)
  }

  /** The remedy offered after `k` of them: the ladder's, the last rung repeated. */
  function Rung(k: nat): Remedy {
    LIVENESS_LADDER[if k < 1 then k else 1]
  }

  /** The verdict a history ending in a tick deserves. */
  function Verdict(h: seq<Event>): Assessment
    requires h != [] && h[|h| - 1].Tick?
  {
    var cur := h[|h| - 1].snap;
    match CheckLocal(cur)
    case Some(f) => Assessment(false, f.layer, f.remedy, Suspicious(cur))
    case None =>
      if Flaps(h) >= FLAPS_BEFORE_FAILING
      then Assessment(false, Liveness, Rung(Escalation(h)), true)
      else Assessment(true, Hardware, NoRemedy, Suspicious(cur))
  }

  lemma {:induction false} PrefixSame(h: seq<Event>, e: Event, n: nat)
    requires n <= |h|
    ensures LastTick(h + [e], n) == LastTick(h, n)
    ensures SinceStable(h + [e], n) == SinceStable(h, n)
    ensures forall from :: CountFlaps(h + [e], from, n) == CountFlaps(h, from, n)
    ensures forall from :: CountRemedies(h + [e], from, n) == CountRemedies(h, from, n)
    ensures forall i :: 0 <= i < n ==> IsFlap(h + [e], i) == IsFlap(h, i) && IsStable(h + [e], i) == IsStable(h, i)
  {
    hide SessionFlapped, CheckLocal;
    if n > 0 {
      PrefixSame(h, e, n - 1);
    }
  }

  /** How one more event changes the counts: a flap adds one, a stable tick starts over,
      a liveness remedy climbs; ticks that fail locally and other remedies change nothing. */
  lemma OneMoreEvent(h: seq<Event>, e: Event)
    ensures var h' := h + [e];
            && (IsStable(h', |h|) ==> Flaps(h') == 0 && Escalation(h') == 0)
            && (!IsStable(h', |h|) ==>
                  && Flaps(h') == Flaps(h) + (if IsFlap(h', |h|) then 1 else 0)
                  && Escalation(h') == Escalation(h) + (if IsLivenessRemedy(e) then 1 else 0))
  {
    hide IsFlap, IsStable, IsLivenessRemedy;
    PrefixSame(h, e, |h|);
  }

  /** The ticks `j` and `i` follow one another. */
  ghost predicate Consecutive(h: seq<Event>, j: nat, i: nat) {
    j < i < |h| && h[j].Tick? && h[i].Tick? && forall k :: j < k < i ==> h[k].Noted?
  }

  lemma {:induction false} LastTickIs(h: seq<Event>, n: nat)
    requires n <= |h|
    ensures LastTick(h, n).Some? ==>
              exists j :: 0 <= j < n && h[j].Tick? && h[j].snap == LastTick(h, n).value && forall k :: j < k < n ==> h[k].Noted?
    ensures LastTick(h, n).None? ==> forall j :: 0 <= j < n ==> h[j].Noted?
  {
    if n > 0 && !h[n - 1].Tick? {
      LastTickIs(h, n - 1);
    }
  }

  /** Flaps and stable ticks in terms of two consecutive ticks, the later of which no layer fails:
      a reconnect into a session of less than two minutes, or else a session of at least that. */
  lemma FlapsAreShortReconnects(h: seq<Event>, j: nat, i: nat)
    requires Consecutive(h, j, i) && forall l :: !Fails(h[i].snap, l)
    ensures var prev, cur := h[j].snap, h[i].snap;
            && (IsFlap(h, i) <==>
                  && prev.bearerSessionKnown && cur.bearerSessionKnown
                  && cur.bearerAttempts > prev.bearerAttempts && cur.bearerDuration < 120)
            && (IsStable(h, i) <==> cur.bearerSessionKnown && cur.bearerDuration >= 120)
  {
    LowestFailingLayer(h[i].snap);
    hide CheckLocal, Fails;
    LastTickIs(h, i);
  }

  /** A tick that some layer fails, the first one and a remedy are neither. */
  lemma OthersAreNeither(h: seq<Event>, i: nat)
    requires i < |h|
    ensures h[i].Noted? || (exists l :: Fails(h[i].snap, l)) || (forall j :: 0 <= j < i ==> h[j].Noted?) ==> !IsFlap(h, i) && !IsStable(h, i)
  {
    if h[i].Tick? {
      LowestFailingLayer(h[i].snap);
    }
    hide CheckLocal, Fails;
    LastTickIs(h, i);
  }

  /** The verdict of a tick that no layer fails: three flaps since the last stable tick make
      a failure, answered with a bearer bounce first and with a reattach after any
      liveness remedy. */
  lemma ThreeFlapsFail(h: seq<Event>)
    requires h != [] && h[|h| - 1].Tick?
    ensures var s := h[|h| - 1].snap;
            (forall l :: !Fails(s, l)) ==> (Verdict(h).healthy <==> Flaps(h) < 3) && (Verdict(h).healthy || Verdict(h).failedLayer == Liveness)
    ensures !Verdict(h).healthy && Verdict(h).failedLayer == Liveness ==>
              Verdict(h) == Assessment(false, Liveness, if Escalation(h) == 0 then BearerBounce else Reattach, true)
  {
    LowestFailingLayer(h[|h| - 1].snap);
    hide CheckLocal, Fails, Flaps, Escalation;
  }

  /** Unless liveness failed, the modem itself is asked exactly if its context, its attachment
      or its address looks wrong. */
  lemma ATCheckIffSuspicious(h: seq<Event>)
    requires h != [] && h[|h| - 1].Tick? && (Verdict(h).healthy || Verdict(h).failedLayer != Liveness)
    ensures var s := h[|h| - 1].snap;
            Verdict(h).wantATCheck <==>
            || (s.bearerKnown && s.bearerConnectedKnown && !s.bearerConnected)
            || (s.bearerKnown && s.bearerSuspendedKnown && s.bearerSuspended)
            || s.packetService == "detached"
            || (s.netdevIP != "" && s.bearerIP != "" && s.netdevIP != s.bearerIP)
  {
    hide CheckLocal, Flaps, Escalation;
  }

  class Assessor {
    var prev: Snapshot
    var havePrev: bool
    var flaps: nat
    var escalation: nat
    ghost var history: seq<Event>

    ghost predicate Valid()
      reads this
    {
      && flaps == Flaps(history) && escalation == Escalation(history)
      && LastTick(history, |history|) == if havePrev then Some(prev) else None
    }

    constructor (blank: Snapshot)
      ensures Valid() && history == []
    {
      prev, havePrev, flaps, escalation, history := blank, false, 0, 0, [];
    }

    /** One tick: the verdict on what has been seen so far and now. */
    method Assess(cur: Snapshot) returns (a: Assessment)
      requires Valid()
      modifies this
      ensures Valid() && history == old(history) + [Tick(cur)]
      ensures a == Verdict(history)
    {
      hide CheckLocal, SessionFlapped, Suspicious;
      OneMoreEvent(history, Tick(cur));
      PrefixSame(history, Tick(cur), |history|);
      history := history + [Tick(cur)];
      var prev0, havePrev0 := prev, havePrev;
      prev, havePrev := cur, true;
      var fail := CheckLocal(cur);
      if fail.Some? {
        return Assessment(false, fail.value.layer, fail.value.remedy, Suspicious(cur));
      }
      if havePrev0 {
        if SessionFlapped(prev0, cur) {
          flaps := flaps + 1;
        } else if cur.bearerSessionKnown && cur.bearerDuration >= STABLE_SESSION_SECONDS {
          flaps, escalation := 0, 0;
        }
      }
      if flaps >= FLAPS_BEFORE_FAILING {
        var rung := if escalation < |LIVENESS_LADDER| - 1 then escalation else |LIVENESS_LADDER| - 1;
        return Assessment(false, Liveness, LIVENESS_LADDER[rung], true);
      }
      a := Assessment(true, Hardware, NoRemedy, Suspicious(cur));
    }

    /** Climbs the liveness ladder for a liveness remedy; nothing tells whether it ran. */
    method NoteRemedyApplied(layer: Layer, r: Remedy, ghost ran: bool)
      requires Valid()
      modifies this
      ensures Valid() && history == old(history) + [Noted(layer, r, ran)]
    {
      OneMoreEvent(history, Noted(layer, r, ran));
      PrefixSame(history, Noted(layer, r, ran), |history|);
      history := history + [Noted(layer, r, ran)];
      if r == NoRemedy || layer != Liveness { return; }
      escalation := escalation + 1;
    }
  }

  // ----- remedies that ran -----

  /** Liveness remedies that were in fact carried out. */
  function CountRan(h: seq<Event>, from: nat, n: nat): nat
    requires n <= |h|
  {
    if n <= from then 0 else CountRan(h, from, n - 1) + (if IsLivenessRemedy(h[n - 1]) && h[n - 1].ran then 1 else 0)
  }

  function Ran(h: seq<Event>): nat {
    CountRan(h, SinceStable(h, |h|), |h|)
  }

  lemma {:induction false} NotedCoversRan(h: seq<Event>, from: nat, n: nat)
    requires n <= |h|
    ensures CountRan(h, from, n) <= CountRemedies(h, from, n)
    ensures CountRan(h, from, n) == CountRemedies(h, from, n) <==>
            forall i :: from <= i < n && IsLivenessRemedy(h[i]) ==> h[i].ran
  {
    if n > from {
      NotedCoversRan(h, from, n - 1);
    }
  }

  /** The ladder counts the remedies that ran since the last stable tick exactly if every
      liveness remedy noted since then did run. */
  lemma LadderCountsRanIff(h: seq<Event>)
    ensures Ran(h) <= Escalation(h)
    ensures Escalation(h) == Ran(h) <==>
            forall i :: SinceStable(h, |h|) <= i < |h| && IsLivenessRemedy(h[i]) ==> h[i].ran
  {
    NotedCoversRan(h, SinceStable(h, |h|), |h|);
  }

  /** What a liveness failure is offered is what the remedies that ran deserve, exactly if
      one of those noted since the last stable tick ran, or none was noted. */
  lemma RungIsEarnedIff(h: seq<Event>)
    requires h != [] && h[|h| - 1].Tick? && !Verdict(h).healthy && Verdict(h).failedLayer == Liveness
    ensures Verdict(h).remedy == Rung(Ran(h)) <==> Escalation(h) == 0 || Ran(h) > 0
  {
    LowestFailingLayer(h[|h| - 1].snap);
    LadderCountsRanIff(h);
  }

  // ----- the count of flaps along a history -----

  function FlapsAt(h: seq<Event>, n: nat): nat
    requires n <= |h|
  {
    CountFlaps(h, SinceStable(h, n), n)
  }

  lemma FlapsStep(h: seq<Event>, i: nat)
    requires i < |h|
    ensures FlapsAt(h, i + 1) == if IsStable(h, i) then 0 else FlapsAt(h, i) + (if IsFlap(h, i) then 1 else 0)
  {
  }

  lemma HealthyPasses(h: seq<Event>)
    requires h != [] && h[|h| - 1].Tick? && Verdict(h).healthy
    ensures CheckLocal(h[|h| - 1].snap).None?
  {
    hide CheckLocal, Flaps;
  }

  /** The verdict of a tick that passes locally. */
  lemma PassingVerdict(h: seq<Event>)
    requires h != [] && h[|h| - 1].Tick? && CheckLocal(h[|h| - 1].snap).None?
    ensures Verdict(h).healthy <==> FlapsAt(h, |h|) < FLAPS_BEFORE_FAILING
    ensures !Verdict(h).healthy ==> Verdict(h) == Assessment(false, Liveness, Rung(Escalation(h)), true)
  {
    hide CheckLocal;
  }

  /** A tick at which nothing fails locally, in a session of this age. */
  function SessionTick(known: bool, attempts: nat, duration: nat): Event {
    Tick(Snapshot(true, false, false, "", "", "", "", false, false, false, false, false,
                  false, "", known, attempts, duration, false, false, "", false, false, "", false, false))
  }

  lemma SessionTickPasses(known: bool, attempts: nat, duration: nat)
    ensures CheckLocal(SessionTick(known, attempts, duration).snap).None?
  {
  }
}

/** What missed reads can make of the assessor's verdict. The promise is that a read that
    fails can never manufacture a remedy; these are the exact ways in which it can. */
module MissedReads {
  import opened Wrappers
  import opened Link

  predicate Missed(known': bool, known: bool) {
    known' ==> known
  }

  predicate MissedText(t': string, t: string) {
    t' == "" || t' == t
  }

  /** With the modem found in both, `s'` read nothing that `s` did not read, and what it read
      is the same. A field not read holds its default. Reading another bearer instead, when
      the data bearer or its interface goes unread, is not covered. */
  predicate ReadsLess(s': Snapshot, s: Snapshot) {
    && s'.modemPresent == s.modemPresent
    && Missed(s'.primaryPortKnown, s.primaryPortKnown) && (s'.primaryPortKnown ==> s'.primaryPortOK == s.primaryPortOK)
    && MissedText(s'.powerState, s.powerState) && MissedText(s'.simLock, s.simLock)
    && MissedText(s'.registration, s.registration) && MissedText(s'.packetService, s.packetService)
    && Missed(s'.bearerKnown, s.bearerKnown)
    && Missed(s'.bearerConnectedKnown, s.bearerConnectedKnown) && (s'.bearerConnectedKnown ==> s'.bearerConnected == s.bearerConnected)
    && (!s'.bearerConnectedKnown ==> !s'.bearerConnected)
    && Missed(s'.bearerSuspendedKnown, s.bearerSuspendedKnown) && (s'.bearerSuspendedKnown ==> s'.bearerSuspended == s.bearerSuspended)
    && Missed(s'.bearerIPKnown, s.bearerIPKnown) && (s'.bearerIPKnown ==> s'.bearerIP == s.bearerIP)
    && Missed(s'.atChecked, s.atChecked) && (s'.atChecked ==> s'.cgactActive == s.cgactActive && MissedText(s'.cgpaddr, s.cgpaddr))
    && Missed(s'.carrierKnown, s.carrierKnown) && (s'.carrierKnown ==> s'.carrier == s.carrier)
    && Missed(s'.bearerSessionKnown, s.bearerSessionKnown)
    && (s'.bearerSessionKnown ==> s'.bearerAttempts == s.bearerAttempts && s'.bearerDuration == s.bearerDuration)
    && MissedText(s'.netdevIP, s.netdevIP)
    && Missed(s'.defaultRouteKnown, s.defaultRouteKnown) && (s'.defaultRouteKnown ==> s'.hasDefaultRoute == s.hasDefaultRoute)
  }

  /** The snapshot of a tick at which the modem was not found, or could not be looked for. */
  const NOT_FOUND := Snapshot(false, false, false, "", "", "", "", false, false, false, false, false,
                              false, "", false, 0, 0, false, false, "", false, false, "", false, false)

  /** `s'` is `s` with some reads missed. Missing the modem itself misses everything. */
  predicate Misses(s': Snapshot, s: Snapshot) {
    s' == NOT_FOUND || ReadsLess(s', s)
  }

  /** The modem was there and was not found. */
  predicate MissesModem(s': Snapshot, s: Snapshot) {
    s.modemPresent && !s'.modemPresent
  }

  /** A missed read makes the local check fail only by missing the modem: what else fails it
      with some reads missed fails it, at that layer or a lower one, with all of them. */
  lemma MissedReadsPassLocally(s': Snapshot, s: Snapshot)
    requires Misses(s', s) && !MissesModem(s', s)
    ensures CheckLocal(s').Some? ==>
              CheckLocal(s).Some? && CheckLocal(s).value.layer.Rung() <= CheckLocal(s').value.layer.Rung()
  {
    if CheckLocal(s').Some? {
      LowestFailingLayer(s');
      LowestFailingLayer(s);
      MissedFails(s', s, CheckLocal(s').value.layer);
      assert !s.modemPresent ==> Fails(s, Hardware);
    }
  }

  lemma MissedFails(s': Snapshot, s: Snapshot, l: Layer)
    requires Misses(s', s) && !MissesModem(s', s) && Fails(s', l)
    ensures Fails(s, l) || !s.modemPresent
  {
  }

  // ----- missed reads over a history -----

  /** `h'` is `h` with some reads missed. */
  ghost predicate MissesIn(h': seq<Event>, h: seq<Event>) {
    |h'| == |h| && forall i :: 0 <= i < |h| ==> MissesAt(h'[i], h[i])
  }

  predicate MissesAt(e': Event, e: Event) {
    if e.Tick? then e'.Tick? && Misses(e'.snap, e.snap) else e' == e
  }

  /** Tick `i` raises the count of flaps because of a read it missed: it hides that the
      session had become stable while flaps are being counted; or it fails locally when
      read in full, passes as a flap because a read was missed, and the count is not behind. */
  predicate Raises(h': seq<Event>, h: seq<Event>, i: nat)
    requires i < |h| == |h'|
  {
    || (IsStable(h, i) && !IsStable(h', i) && FlapsAt(h', i) > 0)
    || (h[i].Tick? && CheckLocal(h[i].snap).Some? && IsFlap(h', i) && FlapsAt(h', i) >= FlapsAt(h, i))
  }

  lemma {:induction false} MissedLastTick(h': seq<Event>, h: seq<Event>, n: nat)
    requires MissesIn(h', h) && n <= |h|
    ensures LastTick(h', n).Some? <==> LastTick(h, n).Some?
    ensures LastTick(h, n).Some? ==> Misses(LastTick(h', n).value, LastTick(h, n).value)
  {
    hide Misses;
    if n > 0 {
      assert MissesAt(h'[n - 1], h[n - 1]);
      MissedLastTick(h', h, n - 1);
    }
  }

  /** What a missed read can and cannot make of one tick. */
  lemma MissedTick(h': seq<Event>, h: seq<Event>, i: nat)
    requires MissesIn(h', h) && i < |h|
    ensures IsFlap(h', i) ==> h[i].Tick? && (IsFlap(h, i) || CheckLocal(h[i].snap).Some?) && !IsStable(h, i)
    ensures IsFlap(h', i) ==> !IsStable(h', i)
    ensures h[i].Tick? && CheckLocal(h[i].snap).Some? ==> !IsFlap(h, i) && !IsStable(h, i)
  {
    hide CheckLocal;
    assert MissesAt(h'[i], h[i]);
    MissedLastTick(h', h, i);
  }

  lemma {:induction false} FirstRaise(h': seq<Event>, h: seq<Event>, n: nat)
    requires MissesIn(h', h) && n <= |h|
    requires forall i :: 0 <= i < n ==> !Raises(h', h, i)
    ensures FlapsAt(h', n) <= FlapsAt(h, n)
  {
    hide CheckLocal, IsFlap, IsStable, FlapsAt;
    if n == 0 {
      assert FlapsAt(h', 0) == 0 by { NoFlapsYet(h'); }
    } else {
      FirstRaise(h', h, n - 1);
      MissedTick(h', h, n - 1);
      FlapsStep(h', n - 1);
      FlapsStep(h, n - 1);
      assert !Raises(h', h, n - 1);
    }
  }

  lemma NoFlapsYet(h: seq<Event>)
    ensures FlapsAt(h, 0) == 0
  {
  }

  /** Missed reads raise the count of flaps at some time exactly if some tick raises it in
      one of the two ways. */
  lemma MissedReadsRaiseFlapsIff(h': seq<Event>, h: seq<Event>)
    requires MissesIn(h', h)
    ensures (exists n :: 0 <= n <= |h| && FlapsAt(h', n) > FlapsAt(h, n)) <==> (exists i :: 0 <= i < |h| && Raises(h', h, i))
  {
    hide CheckLocal, IsFlap, IsStable, FlapsAt;
    if n :| 0 <= n <= |h| && FlapsAt(h', n) > FlapsAt(h, n) {
      if forall i :: 0 <= i < n ==> !Raises(h', h, i) {
        FirstRaise(h', h, n);
      }
    }
    if i :| 0 <= i < |h| && Raises(h', h, i) {
      MissedTick(h', h, i);
      FlapsStep(h', i);
      FlapsStep(h, i);
      assert FlapsAt(h', i + 1) > FlapsAt(h, i + 1);
    }
  }

  /** A missed read turns a healthy link into a failing one only by missing the modem, or by
      raising the count of flaps. */
  lemma ManufacturedFailureWasRaised(h': seq<Event>, h: seq<Event>)
    requires MissesIn(h', h) && h != [] && h[|h| - 1].Tick?
    ensures Verdict(h).healthy && !Verdict(h').healthy ==>
              || MissesModem(h'[|h| - 1].snap, h[|h| - 1].snap)
              || (Verdict(h').failedLayer == Liveness && exists i :: 0 <= i < |h| && Raises(h', h, i))
  {
    hide CheckLocal, Raises, MissesModem, FlapsAt, Verdict, Misses;
    var n := |h|;
    assert MissesAt(h'[n - 1], h[n - 1]);
    if Verdict(h).healthy && !Verdict(h').healthy && !MissesModem(h'[n - 1].snap, h[n - 1].snap) {
      HealthyPasses(h);
      MissedReadsPassLocally(h'[n - 1].snap, h[n - 1].snap);
      hide MissesIn;
      PassingVerdict(h);
      PassingVerdict(h');
      assert FlapsAt(h', n) > FlapsAt(h, n);
      MissedReadsRaiseFlapsIff(h', h);
    }
  }

  // ----- manufactured remedies -----

  /** The SIM is locked, or the modem is not registered: faults no remedy is offered for. */
  predicate Hopeless(s: Snapshot) {
    !Fails(s, Hardware) && (Fails(s, SIM) || Fails(s, Registration))
  }

  /** With lock and registration passing, a layer above them fails that a remedy is for. */
  predicate FailsAbove(s: Snapshot) {
    && !Fails(s, Hardware) && !Fails(s, SIM) && !Fails(s, Registration)
    && (Fails(s, PacketService) || Fails(s, Bearer) || Fails(s, Netdev))
  }

  /** When a verdict offers a remedy, in terms of what fails. */
  lemma OffersRemedyIff(h: seq<Event>)
    requires h != [] && h[|h| - 1].Tick?
    ensures var s := h[|h| - 1].snap;
            && (Verdict(h).remedy != NoRemedy <==>
                  Fails(s, Hardware) || FailsAbove(s) || (CheckLocal(s).None? && FlapsAt(h, |h|) >= FLAPS_BEFORE_FAILING))
            && (Verdict(h).remedy == ModemReset <==> Fails(s, Hardware))
            && (Hopeless(s) <==> !Verdict(h).healthy && Verdict(h).remedy == NoRemedy)
  {
    var s := h[|h| - 1].snap;
    LowestFailingLayer(s);
    if CheckLocal(s).None? {
      PassingVerdict(h);
    } else {
      LocalVerdict(h);
    }
    hide CheckLocal, Verdict, FlapsAt;
  }

  lemma LocalVerdict(h: seq<Event>)
    requires h != [] && h[|h| - 1].Tick? && CheckLocal(h[|h| - 1].snap).Some?
    ensures var f := CheckLocal(h[|h| - 1].snap).value;
            !Verdict(h).healthy && Verdict(h).failedLayer == f.layer && Verdict(h).remedy == f.remedy
  {
    hide CheckLocal;
  }

  /** Missed reads manufacture a remedy, where the full history asks for none, exactly in
      these ways: the modem was not found; the SIM is locked or the modem unregistered, that
      went unread, and a layer above fails or three flaps are counted; or the link is healthy
      and three flaps are counted. */
  lemma RemedyIsManufacturedIff(h': seq<Event>, h: seq<Event>)
    requires MissesIn(h', h) && h != [] && h[|h| - 1].Tick?
    ensures h'[|h| - 1].Tick?
    ensures var s', s := h'[|h| - 1].snap, h[|h| - 1].snap;
            var flapping := CheckLocal(s').None? && FlapsAt(h', |h|) >= 3;
            (Verdict(h).remedy == NoRemedy && Verdict(h').remedy != NoRemedy) <==>
            || (MissesModem(s', s) && (Verdict(h).healthy || Hopeless(s)))
            || (Hopeless(s) && (FailsAbove(s') || flapping))
            || (Verdict(h).healthy && flapping)
  {
    var s', s := h'[|h| - 1].snap, h[|h| - 1].snap;
    assert MissesAt(h'[|h| - 1], h[|h| - 1]);
    OffersRemedyIff(h);
    OffersRemedyIff(h');
    LowestFailingLayer(s);
    LowestFailingLayer(s');
    MissedLayers(s', s);
    HealthyOrNot(h);
    hide CheckLocal, Verdict, FlapsAt, Misses, Fails;
  }

  lemma HealthyOrNot(h: seq<Event>)
    requires h != [] && h[|h| - 1].Tick?
    ensures Verdict(h).healthy ==> Verdict(h).remedy == NoRemedy && CheckLocal(h[|h| - 1].snap).None?
  {
    hide CheckLocal, Flaps;
  }

  lemma MissedLayers(s': Snapshot, s: Snapshot)
    requires Misses(s', s)
    ensures MissesModem(s', s) ==> Fails(s', Hardware)
    ensures !MissesModem(s', s) ==> forall l :: Fails(s', l) ==> Fails(s, l) || Fails(s, Hardware)
  {
    if !MissesModem(s', s) {
      forall l | Fails(s', l) ensures Fails(s, l) || Fails(s, Hardware) {
        MissedFails(s', s, l);
      }
    }
  }

  /** A modem reset is manufactured only by not finding the modem. */
  lemma ResetIsManufacturedIff(h': seq<Event>, h: seq<Event>)
    requires MissesIn(h', h) && h != [] && h[|h| - 1].Tick?
    ensures h'[|h| - 1].Tick?
    ensures Verdict(h).remedy != ModemReset && Verdict(h').remedy == ModemReset <==>
            MissesModem(h'[|h| - 1].snap, h[|h| - 1].snap) && !Fails(h[|h| - 1].snap, Hardware)
  {
    var s', s := h'[|h| - 1].snap, h[|h| - 1].snap;
    assert MissesAt(h'[|h| - 1], h[|h| - 1]);
    OffersRemedyIff(h);
    OffersRemedyIff(h');
    MissedLayers(s', s);
  }

  // ----- the failing cases -----

  /** A vehicle out of coverage: not registered, and so without a bearer. */
  function OutOfCoverage(registration: string): Snapshot {
    SessionTick(false, 0, 0).snap.(registration := registration, bearerKnown := true, bearerConnectedKnown := true)
  }

  /** One tick with the registration unread asks for a bearer bounce, where the full tick
      asks for nothing; and one that does not find a healthy modem asks for its reset. */
  lemma OneMissedReadIsEnough()
    ensures var h, h' := [Tick(OutOfCoverage("searching"))], [Tick(OutOfCoverage(""))];
            && MissesIn(h', h) && !Raises(h', h, 0)
            && Verdict(h) == Assessment(false, Registration, NoRemedy, true)
            && Verdict(h') == Assessment(false, Bearer, BearerBounce, true)
    ensures var h, h' := [SessionTick(false, 0, 0)], [Tick(NOT_FOUND)];
            MissesIn(h', h) && Verdict(h).healthy && Verdict(h').remedy == ModemReset
  {
    var h := [SessionTick(false, 0, 0)];
    SessionTickPasses(false, 0, 0);
    FlapsStep(h, 0);
    assert FlapsAt(h, 0) == 0 && !IsFlap(h, 0);
    PassingVerdict(h);
  }

  /** Six ticks of a vehicle that loses its session now and then; at the fourth the session
      has become stable. */
  function SixTicks(fourthRead: bool): seq<Event> {
    [SessionTick(true, 1, 200), SessionTick(true, 2, 5), SessionTick(true, 3, 5), SessionTick(fourthRead, 3, 130),
     SessionTick(true, 4, 5), SessionTick(true, 5, 5)]
  }

  lemma SixTicksFlaps(read: bool)
    ensures var h := SixTicks(read); FlapsAt(h, 3) == 2 && FlapsAt(h, 6) == if read then 2 else 3
  {
    var h := SixTicks(read);
    hide CheckLocal, FlapsAt;
    NoFlapsYet(h);
    forall known, attempts, duration ensures CheckLocal(SessionTick(known, attempts, duration).snap).None? {
      SessionTickPasses(known, attempts, duration);
    }
    FlapsStep(h, 0);
    FlapsStep(h, 1);
    FlapsStep(h, 2);
    FlapsStep(h, 3);
    FlapsStep(h, 4);
    FlapsStep(h, 5);
  }

  lemma SixTicksMiss()
    ensures MissesIn(SixTicks(false), SixTicks(true))
  {
  }

  lemma FourthHidesStable()
    ensures Raises(SixTicks(false), SixTicks(true), 3)
  {
    SixTicksFlaps(false);
    SessionTickPasses(true, 3, 130);
    hide CheckLocal, FlapsAt;
  }

  /** With the session of the stable tick not read, a healthy link is
      offered a bearer bounce. */
  lemma MissedReadManufacturesRemedy()
    ensures MissesIn(SixTicks(false), SixTicks(true))
    ensures Verdict(SixTicks(true)).healthy
    ensures Verdict(SixTicks(false)) == Assessment(false, Liveness, BearerBounce, true)
    ensures Raises(SixTicks(false), SixTicks(true), 3)
  {
    var full, missed := SixTicks(true), SixTicks(false);
    SixTicksMiss();
    FourthHidesStable();
    hide CheckLocal, FlapsAt, Verdict, MissesIn, Raises;
    SessionTickPasses(true, 5, 5);
    SixTicksFlaps(true);
    SixTicksFlaps(false);
    PassingVerdict(full);
    PassingVerdict(missed);
    NothingNoted(missed, SinceStable(missed, 6), 6);
  }

  lemma {:induction false} NothingNoted(h: seq<Event>, from: nat, n: nat)
    requires n <= |h| && forall i :: 0 <= i < n ==> h[i].Tick?
    ensures CountRemedies(h, from, n) == 0
  {
    if n > from {
      NothingNoted(h, from, n - 1);
    }
  }
}

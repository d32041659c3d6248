/** The cellular byte counter: monotonic totals from per-session readings, and their
    persistence across restarts. The file is an abstract cell replaced atomically. */
module DataUsage {
  import opened Wrappers

  /** Totals are 64-bit and wrap. */
  const WORD: nat := 0x1_0000_0000_0000_0000

  function Add64(a: nat, b: nat): nat {
    (a + b) % WORD
  }

  datatype Totals = Totals(rx: nat, tx: nat, rxRoaming: nat, txRoaming: nat)

  const ZERO := Totals(0, 0, 0, 0)

  datatype Sample = Sample(path: string, rx: nat, tx: nat, roaming: bool)

  datatype Baseline = Baseline(path: string, rx: nat, tx: nat)

  /** What counting depends on. */
  datatype Memory = Memory(totals: Totals, last: Option<Baseline>)

  datatype Persisted = Persisted(totals: Totals, since: string, lastBearer: string, lastRx: nat, lastTx: nat)

  function BaselineOf(s: Sample): Baseline {
    Baseline(s.path, s.rx, s.tx)
  }

  /** The reading goes on from the last one: same session, neither counter went back. */
  predicate Continues(last: Option<Baseline>, s: Sample) {
    last.Some? && s.path == last.value.path && s.rx >= last.value.rx && s.tx >= last.value.tx
  }

  function DeltaRx(last: Option<Baseline>, s: Sample): nat {
    if Continues(last, s) then s.rx - last.value.rx else s.rx
  }

  function DeltaTx(last: Option<Baseline>, s: Sample): nat {
    if Continues(last, s) then s.tx - last.value.tx else s.tx
  }

  function Observed(m: Memory, s: Sample): Memory {
    var rx, tx, t := DeltaRx(m.last, s), DeltaTx(m.last, s), m.totals;
    Memory(Totals(Add64(t.rx, rx), Add64(t.tx, tx),
                  if s.roaming then Add64(t.rxRoaming, rx) else t.rxRoaming,
                  if s.roaming then Add64(t.txRoaming, tx) else t.txRoaming),
           Some(BaselineOf(s)))
  }

  /** What one reading adds: the difference, if it is of the same bearer and neither counter
      went back, and else all of it; to the roaming totals too, while roaming. Totals wrap
      at 64 bits. */
  lemma ReadingAdds(m: Memory, s: Sample)
    ensures var goesOn := m.last.Some? && m.last.value.path == s.path && m.last.value.rx <= s.rx && m.last.value.tx <= s.tx;
            var rx, tx := if goesOn then s.rx - m.last.value.rx else s.rx, if goesOn then s.tx - m.last.value.tx else s.tx;
            var t, t' := m.totals, Observed(m, s).totals;
            && t'.rx == (t.rx + rx) % 18_446_744_073_709_551_616
            && t'.tx == (t.tx + tx) % 18_446_744_073_709_551_616
            && t'.rxRoaming == (if s.roaming then (t.rxRoaming + rx) % 18_446_744_073_709_551_616 else t.rxRoaming)
            && t'.txRoaming == (if s.roaming then (t.txRoaming + tx) % 18_446_744_073_709_551_616 else t.txRoaming)
            && Observed(m, s).last == Some(Baseline(s.path, s.rx, s.tx))
  {
  }

  function ObservedAll(m: Memory, ss: seq<Sample>): Memory {
    if ss == [] then m else Observed(ObservedAll(m, ss[..|ss| - 1]), ss[|ss| - 1])
  }

  function Last(b: Option<Baseline>, ss: seq<Sample>): Option<Baseline> {
    if ss == [] then b else Some(BaselineOf(ss[|ss| - 1]))
  }

  function ToPersist(m: Memory, since: string): Persisted {
    match m.last
    case Some(b) => Persisted(m.totals, since, b.path, b.rx, b.tx)
    case None => Persisted(m.totals, since, "", 0, 0)
  }

  /** Without a stored session the next reading counts in full. */
  function FromFile(p: Persisted): Memory {
    Memory(p.totals, if p.lastBearer != "" then Some(Baseline(p.lastBearer, p.lastRx, p.lastTx)) else None)
  }

  function Loaded(content: Option<Persisted>): Memory {
    match content case Some(p) => FromFile(p) case None => Memory(ZERO, None)
  }

  // ----- what is counted -----

  /** Sample `i` is the last of its run: the next one, if any, starts over. */
  predicate EndsRun(ss: seq<Sample>, i: nat)
    requires i < |ss|
  {
    i + 1 == |ss| || !Continues(Some(BaselineOf(ss[i])), ss[i + 1])
  }

  /** The sum of each run's last reading, over the first `n` samples' runs that ended. */
  function RunEnds(ss: seq<Sample>, n: nat, rx: bool): nat
    requires n <= |ss|
  {
    if n == 0 then 0
    else RunEnds(ss, n - 1, rx) + (if EndsRun(ss, n - 1) then (if rx then ss[n - 1].rx else ss[n - 1].tx) else 0)
  }

  /** The stored baseline, if the first run continues it. */
  function Carried(b: Option<Baseline>, ss: seq<Sample>, rx: bool): nat {
    if ss != [] && Continues(b, ss[0]) then (if rx then b.value.rx else b.value.tx) else 0
  }

  function Exact(b: Option<Baseline>, ss: seq<Sample>, rx: bool): nat {
    if ss == [] then 0
    else
      var n := |ss| - 1;
      Exact(b, ss[..n], rx) + (if rx then DeltaRx(Last(b, ss[..n]), ss[n]) else DeltaTx(Last(b, ss[..n]), ss[n]))
  }

  function ExactRoaming(b: Option<Baseline>, ss: seq<Sample>, rx: bool): nat {
    if ss == [] then 0
    else
      var n := |ss| - 1;
      ExactRoaming(b, ss[..n], rx) +
      (if !ss[n].roaming then 0 else if rx then DeltaRx(Last(b, ss[..n]), ss[n]) else DeltaTx(Last(b, ss[..n]), ss[n]))
  }

  lemma {:induction false} RunEndsPrefix(ss: seq<Sample>, s: Sample, n: nat, rx: bool)
    requires n < |ss|
    ensures RunEnds(ss + [s], n, rx) == RunEnds(ss, n, rx)
  {
    if n > 0 {
      RunEndsPrefix(ss, s, n - 1, rx);
      assert EndsRun(ss + [s], n - 1) == EndsRun(ss, n - 1);
    }
  }

  /** The differences telescope: what is counted is the sum of each run's last reading,
      less the stored baseline if the first run continues it. */
  lemma {:induction false} Telescopes(b: Option<Baseline>, ss: seq<Sample>, rx: bool)
    ensures Exact(b, ss, rx) == RunEnds(ss, |ss|, rx) - Carried(b, ss, rx)
  {
    if ss != [] {
      var n, init, s := |ss| - 1, ss[..|ss| - 1], ss[|ss| - 1];
      Telescopes(b, init, rx);
      assert ss == init + [s];
      if n > 0 {
        RunEndsPrefix(init, s, n - 1, rx);
      }
    }
  }

  lemma ModAdd(a: nat, x: nat, y: nat)
    ensures Add64(Add64(a, x), y) == Add64(a, x + y)
  {
    ModShift(a + x, y);
  }

  lemma ModShift(u: int, y: int)
    ensures (u % WORD + y) % WORD == (u + y) % WORD
  {
    var q := u / WORD;
    assert u == q * WORD + u % WORD;
    ModMultiple(u % WORD + y, q);
  }

  lemma {:induction false} ModMultiple(v: int, q: int)
    ensures (v + q * WORD) % WORD == v % WORD
    decreases if q < 0 then -q else q
  {
    if q > 0 {
      ModMultiple(v, q - 1);
      assert v + q * WORD == (v + (q - 1) * WORD) + WORD;
    } else if q < 0 {
      ModMultiple(v, q + 1);
      assert v + q * WORD == (v + (q + 1) * WORD) - WORD;
    }
  }

  lemma {:induction false} TotalsAreExact(m: Memory, ss: seq<Sample>)
    requires m.totals.rx < WORD && m.totals.tx < WORD && m.totals.rxRoaming < WORD && m.totals.txRoaming < WORD
    ensures var r := ObservedAll(m, ss);
            && r.last == Last(m.last, ss)
            && r.totals.rx == Add64(m.totals.rx, Exact(m.last, ss, true))
            && r.totals.tx == Add64(m.totals.tx, Exact(m.last, ss, false))
            && r.totals.rxRoaming == Add64(m.totals.rxRoaming, ExactRoaming(m.last, ss, true))
            && r.totals.txRoaming == Add64(m.totals.txRoaming, ExactRoaming(m.last, ss, false))
  {
    if ss != [] {
      var n, init, s := |ss| - 1, ss[..|ss| - 1], ss[|ss| - 1];
      TotalsAreExact(m, init);
      var l := Last(m.last, init);
      ModAdd(m.totals.rx, Exact(m.last, init, true), DeltaRx(l, s));
      ModAdd(m.totals.tx, Exact(m.last, init, false), DeltaTx(l, s));
      ModAdd(m.totals.rxRoaming, ExactRoaming(m.last, init, true), DeltaRx(l, s));
      ModAdd(m.totals.txRoaming, ExactRoaming(m.last, init, false), DeltaTx(l, s));
    }
  }

  predicate InRange(t: Totals) {
    t.rx < WORD && t.tx < WORD && t.rxRoaming < WORD && t.txRoaming < WORD
  }

  /** Byte conservation, modulo the counter width: after any samples the totals are the
      starting totals plus the sum of each run's last reading, less the baseline. */
  lemma BytesConserved(m: Memory, ss: seq<Sample>)
    requires InRange(m.totals)
    ensures var r := ObservedAll(m, ss).totals;
            && r.rx == (m.totals.rx + RunEnds(ss, |ss|, true) - Carried(m.last, ss, true)) % WORD
            && r.tx == (m.totals.tx + RunEnds(ss, |ss|, false) - Carried(m.last, ss, false)) % WORD
  {
    hide ObservedAll, Exact, ExactRoaming, RunEnds, Carried, Last;
    TotalsAreExact(m, ss);
    Telescopes(m.last, ss, true);
    Telescopes(m.last, ss, false);
  }

  lemma {:induction false} RoamingIsPart(b: Option<Baseline>, ss: seq<Sample>, rx: bool)
    ensures ExactRoaming(b, ss, rx) <= Exact(b, ss, rx)
  {
    if ss != [] {
      RoamingIsPart(b, ss[..|ss| - 1], rx);
    }
  }

  predicate RoamingWithin(t: Totals) {
    t.rxRoaming <= t.rx && t.txRoaming <= t.tx
  }

  /** Counting these samples wraps neither total. */
  predicate NoWrap(m: Memory, ss: seq<Sample>) {
    m.totals.rx + Exact(m.last, ss, true) < WORD && m.totals.tx + Exact(m.last, ss, false) < WORD
  }

  /** As long as nothing wraps, roaming bytes stay a part of all bytes. */
  lemma RoamingWithinTotals(m: Memory, ss: seq<Sample>)
    requires RoamingWithin(m.totals) && NoWrap(m, ss)
    ensures RoamingWithin(ObservedAll(m, ss).totals)
  {
    hide ObservedAll, Exact, ExactRoaming, Last;
    TotalsAreExact(m, ss);
    RoamingIsPart(m.last, ss, true);
    RoamingIsPart(m.last, ss, false);
  }

  lemma {:induction false} ObservedInTwo(m: Memory, a: seq<Sample>, c: seq<Sample>)
    ensures ObservedAll(m, a + c) == ObservedAll(ObservedAll(m, a), c)
  {
    if c == [] {
      assert a + c == a;
    } else {
      var n := |c| - 1;
      assert (a + c)[..|a + c| - 1] == a + c[..n];
      ObservedInTwo(m, a, c[..n]);
    }
  }

  /** Two memories that differ in roaming bytes only. */
  predicate SameCount(a: Memory, b: Memory) {
    a.last == b.last && a.totals.rx == b.totals.rx && a.totals.tx == b.totals.tx
  }

  lemma {:induction false} SameCountStays(a: Memory, b: Memory, ss: seq<Sample>)
    requires SameCount(a, b)
    ensures SameCount(ObservedAll(a, ss), ObservedAll(b, ss))
  {
    if ss != [] {
      SameCountStays(a, b, ss[..|ss| - 1]);
    }
  }

  /** The samples continue one another, starting from `b`. */
  ghost predicate OneRun(b: Option<Baseline>, ss: seq<Sample>) {
    forall i :: 0 <= i < |ss| ==> Continues(Last(b, ss[..i]), ss[i])
  }

  lemma {:induction false} RunCollapses(m: Memory, ss: seq<Sample>)
    requires InRange(m.totals) && ss != [] && OneRun(m.last, ss)
    ensures SameCount(ObservedAll(m, ss), ObservedAll(m, [ss[|ss| - 1]]))
    ensures Continues(m.last, ss[|ss| - 1])
    decreases |ss|
  {
    var n, s := |ss| - 1, ss[|ss| - 1];
    var init := ss[..n];
    assert Continues(Last(m.last, ss[..n]), ss[n]);
    assert [s][..0] == [];
    if n > 0 {
      forall i | 0 <= i < n ensures Continues(Last(m.last, init[..i]), init[i]) {
        assert init[..i] == ss[..i];
      }
      RunCollapses(m, init);
      assert ObservedAll(m, [init[n - 1]]) == Observed(m, init[n - 1]) by { assert [init[n - 1]][..0] == []; }
      ModAdd(m.totals.rx, DeltaRx(m.last, init[n - 1]), DeltaRx(Last(m.last, init), s));
      ModAdd(m.totals.tx, DeltaTx(m.last, init[n - 1]), DeltaTx(Last(m.last, init), s));
    } else {
      assert ss == [s];
    }
  }

  /** Dropping samples in the middle of a run changes neither the totals nor the baseline. */
  lemma DroppedSamplesCountAnyway(m: Memory, before: seq<Sample>, run: seq<Sample>, after: seq<Sample>)
    requires InRange(ObservedAll(m, before).totals)
    requires run != [] && OneRun(ObservedAll(m, before).last, run)
    ensures SameCount(ObservedAll(m, before + run + after), ObservedAll(m, before + [run[|run| - 1]] + after))
  {
    RunCollapses(ObservedAll(m, before), run);
    ObservedInTwo(m, before, run);
    ObservedInTwo(m, before, [run[|run| - 1]]);
    ObservedInTwo(m, before + run, after);
    ObservedInTwo(m, before + [run[|run| - 1]], after);
    SameCountStays(ObservedAll(m, before + run), ObservedAll(m, before + [run[|run| - 1]]), after);
  }

  // ----- restarts -----

  /** Saving and loading gives the memory back exactly when the last session has a name. */
  lemma SavedIsLoaded(m: Memory, since: string)
    ensures FromFile(ToPersist(m, since)) == m <==> (m.last.Some? ==> m.last.value.path != "")
  {
  }

  predicate NamedLast(b: Option<Baseline>) {
    b.Some? ==> b.value.path != ""
  }

  /** Restart refinement: observing, saving, loading and observing on is observing it all,
      whatever comes after, exactly if the session last observed has a name. */
  lemma RestartRefinesIff(m: Memory, s1: seq<Sample>, since: string)
    ensures (forall s2 :: ObservedAll(FromFile(ToPersist(ObservedAll(m, s1), since)), s2) == ObservedAll(m, s1 + s2))
       <==> NamedLast(Last(m.last, s1))
  {
    var saved := ObservedAll(m, s1);
    var loaded := FromFile(ToPersist(saved, since));
    assert saved.last == Last(m.last, s1);
    SavedIsLoaded(saved, since);
    forall s2 ensures ObservedAll(m, s1 + s2) == ObservedAll(saved, s2) {
      ObservedInTwo(m, s1, s2);
    }
    if loaded != saved {
      assert ObservedAll(loaded, []) != ObservedAll(saved, []);
    }
  }

  /** With an unnamed session the bytes counted before the restart are counted again. */
  lemma UnnamedSessionCountsTwice(m: Memory, since: string, s: Sample)
    requires m.last.Some? && m.last.value.path == "" && Continues(m.last, s) && InRange(m.totals)
    ensures Observed(FromFile(ToPersist(m, since)), s).totals.rx == Add64(Observed(m, s).totals.rx, m.last.value.rx)
  {
    ModAdd(m.totals.rx, DeltaRx(m.last, s), m.last.value.rx);
  }

  /** One life of the service: what it observed up to its last write of the file, if it
      wrote it, and after that. It ends in a shutdown or a crash. */
  datatype Life = Life(written: Option<seq<Sample>>, unwritten: seq<Sample>, since: string)

  function Seen(l: Life): seq<Sample> {
    (match l.written case Some(ss) => ss case None => []) + l.unwritten
  }

  /** The file after these lives, of a service that began without one. */
  function FileAfter(lives: seq<Life>): Option<Persisted> {
    if lives == [] then None
    else
      var before, l := FileAfter(lives[..|lives| - 1]), lives[|lives| - 1];
      match l.written
      case None => before
      case Some(ss) => Some(ToPersist(ObservedAll(Loaded(before), ss), l.since))
  }

  lemma {:induction false} ExactGrows(b: Option<Baseline>, ss: seq<Sample>, n: nat, rx: bool)
    requires n <= |ss|
    ensures Exact(b, ss[..n], rx) <= Exact(b, ss, rx)
  {
    assert ss[..|ss|] == ss;
    if n < |ss| {
      assert ss[..|ss| - 1][..n] == ss[..n];
      ExactGrows(b, ss[..|ss| - 1], n, rx);
    }
  }

  lemma RoamingWithinPrefix(m: Memory, ss: seq<Sample>, n: nat)
    requires RoamingWithin(m.totals) && NoWrap(m, ss) && n <= |ss|
    ensures RoamingWithin(ObservedAll(m, ss[..n]).totals)
  {
    hide ObservedAll, Exact;
    ExactGrows(m.last, ss, n, true);
    ExactGrows(m.last, ss, n, false);
    RoamingWithinTotals(m, ss[..n]);
  }

  /** In none of these lives a total wraps. */
  ghost predicate NeverWraps(lives: seq<Life>) {
    forall i :: 0 <= i < |lives| ==> NoWrap(Loaded(FileAfter(lives[..i])), Seen(lives[i]))
  }

  lemma WrapsNotBefore(lives: seq<Life>, n: nat)
    requires NeverWraps(lives) && n <= |lives|
    ensures NeverWraps(lives[..n])
  {
    hide NoWrap, FileAfter, Loaded, Seen;
    forall i | 0 <= i < n ensures lives[..n][..i] == lives[..i] {
    }
  }

  /** Over all lives, however each ended and whatever of it was written, roaming bytes are
      a part of all bytes in the file, as long as no total wraps. */
  lemma {:induction false} RoamingWithinFile(lives: seq<Life>)
    requires NeverWraps(lives)
    ensures RoamingWithin(Loaded(FileAfter(lives)).totals)
  {
    if lives != [] {
      hide NoWrap, FileAfter, RoamingWithin, ObservedAll;
      var k := |lives| - 1;
      WrapsNotBefore(lives, k);
      RoamingWithinFile(lives[..k]);
      FileRoams(FileAfter(lives[..k]), lives[k]);
      OneMoreLife(lives);
    } else {
      assert FileAfter(lives).None?;
    }
  }

  /** And they are so after any sample of any life. */
  lemma RoamingWithinTotalsForGood(lives: seq<Life>, i: nat, n: nat)
    requires NeverWraps(lives) && i < |lives| && n <= |Seen(lives[i])|
    ensures RoamingWithin(ObservedAll(Loaded(FileAfter(lives[..i])), Seen(lives[i])[..n]).totals)
  {
    hide NoWrap, FileAfter, RoamingWithin, ObservedAll;
    WrapsNotBefore(lives, i);
    RoamingWithinFile(lives[..i]);
    RoamingWithinPrefix(Loaded(FileAfter(lives[..i])), Seen(lives[i]), n);
  }

  lemma OneMoreLife(lives: seq<Life>)
    requires lives != []
    ensures var before, l := FileAfter(lives[..|lives| - 1]), lives[|lives| - 1];
            FileAfter(lives) == if l.written.None? then before else Some(ToPersist(ObservedAll(Loaded(before), l.written.value), l.since))
  {
  }

  lemma FileRoams(before: Option<Persisted>, l: Life)
    requires RoamingWithin(Loaded(before).totals) && NoWrap(Loaded(before), Seen(l))
    ensures l.written.Some? ==> RoamingWithin(Loaded(Some(ToPersist(ObservedAll(Loaded(before), l.written.value), l.since))).totals)
  {
    hide ObservedAll, NoWrap;
    if l.written.Some? {
      RoamingWithinPrefix(Loaded(before), Seen(l), |l.written.value|);
      assert Seen(l)[..|l.written.value|] == l.written.value;
    }
  }

  /** A crash that loses the samples of a session already in the file, which goes on
      counting, loses no bytes once the next sample of that session arrives. */
  lemma CrashLosesNothing(saved: Memory, since: string, lost: seq<Sample>, next: Sample)
    requires InRange(saved.totals) && saved.last.Some? && saved.last.value.path != ""
    requires OneRun(saved.last, lost + [next])
    ensures SameCount(ObservedAll(FromFile(ToPersist(saved, since)), [next]), ObservedAll(saved, lost + [next]))
  {
    SavedIsLoaded(saved, since);
    RunCollapses(saved, lost + [next]);
  }

  /** The last readings of the runs that ended among the lost samples, and the baseline if
      the next sample is wrongly taken to go on from it. */
  function Loss(b: Option<Baseline>, lost: seq<Sample>, next: Sample, rx: bool): int {
    RunEnds(lost + [next], |lost|, rx) + Carried(b, [next], rx) - Carried(b, lost + [next], rx)
  }

  /** What a crash loses, whatever it lost. */
  lemma CrashLoses(content: Option<Persisted>, lost: seq<Sample>, next: Sample)
    requires InRange(Loaded(content).totals)
    ensures var m := Loaded(content);
            var crashed, full := ObservedAll(m, [next]).totals, ObservedAll(m, lost + [next]).totals;
            && full.rx == (crashed.rx + Loss(m.last, lost, next, true)) % WORD
            && full.tx == (crashed.tx + Loss(m.last, lost, next, false)) % WORD
  {
    var m, ss := Loaded(content), lost + [next];
    hide Loaded, ObservedAll, Carried;
    BytesConserved(m, ss);
    BytesConserved(m, [next]);
    NextCounts(lost, next, true);
    NextCounts(lost, next, false);
    hide RunEnds;
    LossShift(m.totals.rx, next.rx - Carried(m.last, [next], true), Loss(m.last, lost, next, true));
    LossShift(m.totals.tx, next.tx - Carried(m.last, [next], false), Loss(m.last, lost, next, false));
    hide InRange;
  }

  lemma NextCounts(lost: seq<Sample>, next: Sample, rx: bool)
    ensures var r := if rx then next.rx else next.tx;
            && RunEnds([next], 1, rx) == r
            && RunEnds(lost + [next], |lost| + 1, rx) == RunEnds(lost + [next], |lost|, rx) + r
  {
    assert RunEnds([next], 0, rx) == 0;
  }

  lemma LossShift(t: int, counted: int, loss: int)
    ensures (t + counted + loss) % WORD == ((t + counted) % WORD + loss) % WORD
  {
    ModShift(t + counted, loss);
  }

  lemma {:induction false} NoRunEnds(ss: seq<Sample>, n: nat, rx: bool)
    requires n < |ss| && OneRun(Some(BaselineOf(ss[0])), ss[1..])
    ensures RunEnds(ss, n, rx) == 0
  {
    if n > 0 {
      NoRunEnds(ss, n - 1, rx);
      assert Continues(Last(Some(BaselineOf(ss[0])), ss[1..][..n - 1]), ss[1..][n - 1]);
    }
  }

  /** A crash loses samples of one session, which goes on counting. Nothing is lost exactly
      if the file already had that session, or the next sample is seen to start over, or
      the file's session had counted nothing: a reading of a new session that has caught up
      with the old baseline is taken to go on from it. */
  lemma CrashIsHarmlessIff(content: Option<Persisted>, lost: seq<Sample>, next: Sample)
    requires InRange(Loaded(content).totals) && next.rx < WORD && next.tx < WORD
    requires lost != [] && OneRun(Some(BaselineOf(lost[0])), lost[1..] + [next])
    ensures var saved := Loaded(content);
            (SameCount(ObservedAll(saved, [next]), ObservedAll(saved, lost + [next])) <==>
               (|| Continues(saved.last, lost[0])
                || !Continues(saved.last, next)
                || (saved.last.value.rx == 0 && saved.last.value.tx == 0)))
  {
    hide Loaded, ObservedAll, OneRun, Loss, SameCount;
    var b := Loaded(content).last;
    SameCountIffNoLoss(content, lost, next);
    LossOfOneSession(b, lost, next, true);
    LossOfOneSession(b, lost, next, false);
  }

  lemma SameCountIffNoLoss(content: Option<Persisted>, lost: seq<Sample>, next: Sample)
    requires InRange(Loaded(content).totals)
    ensures var saved := Loaded(content);
            var rx, tx := Loss(saved.last, lost, next, true), Loss(saved.last, lost, next, false);
            0 <= rx < WORD && 0 <= tx < WORD ==>
              (SameCount(ObservedAll(saved, [next]), ObservedAll(saved, lost + [next])) <==> rx == 0 && tx == 0)
  {
    var saved := Loaded(content);
    hide Loaded, ObservedAll, Exact, ExactRoaming, Loss;
    CrashLoses(content, lost, next);
    TotalsAreExact(saved, lost + [next]);
    TotalsAreExact(saved, [next]);
    LossIsVisible(ObservedAll(saved, [next]).totals.rx, Loss(saved.last, lost, next, true));
    LossIsVisible(ObservedAll(saved, [next]).totals.tx, Loss(saved.last, lost, next, false));
  }

  lemma LossOfOneSession(b: Option<Baseline>, lost: seq<Sample>, next: Sample, rx: bool)
    requires lost != [] && OneRun(Some(BaselineOf(lost[0])), lost[1..] + [next])
    ensures Loss(b, lost, next, rx) ==
            if Continues(b, lost[0]) || !Continues(b, next) then 0 else if rx then b.value.rx else b.value.tx
  {
    hide RunEnds, OneRun, Continues;
    assert (lost + [next])[1..] == lost[1..] + [next];
    NoRunEnds(lost + [next], |lost|, rx);
    GoesOn(b, lost, next);
  }

  lemma GoesOn(b: Option<Baseline>, lost: seq<Sample>, next: Sample)
    requires lost != [] && OneRun(Some(BaselineOf(lost[0])), lost[1..] + [next])
    ensures Continues(b, lost[0]) ==> Continues(b, next)
  {
    hide OneRun, ObservedAll;
    RunCollapses(Memory(ZERO, Some(BaselineOf(lost[0]))), lost[1..] + [next]);
  }

  lemma LossIsVisible(counted: nat, loss: int)
    requires counted < WORD
    ensures 0 <= loss < WORD ==> ((counted + loss) % WORD == counted <==> loss == 0)
  {
  }

  /** The failing case: a session of 150 bytes that begins after the last write counts 50. */
  lemma CrashLosesBytes(since: string)
    ensures var file, lost, next := Persisted(Totals(100, 0, 0, 0), since, "/b", 100, 0), Sample("/b", 10, 0, false), Sample("/b", 150, 0, false);
            && ObservedAll(Loaded(Some(file)), [lost, next]).totals.rx == 250
            && ObservedAll(Loaded(Some(file)), [next]).totals.rx == 150
  {
    var saved, lost, next := Memory(Totals(100, 0, 0, 0), Some(Baseline("/b", 100, 0))), Sample("/b", 10, 0, false), Sample("/b", 150, 0, false);
    ObservedInTwo(saved, [lost], [next]);
    assert [lost] + [next] == [lost, next] && [lost][..0] == [] && [next][..0] == [];
  }

  class File {
    var content: Option<Persisted>

    constructor (content: Option<Persisted>)
      ensures this.content == content
    {
      this.content := content;
    }

    /** Replaces the content as a whole, or fails and leaves it. */
    method WriteAtomic(p: Persisted, fails: bool)
      modifies this
      ensures content == if fails then old(content) else Some(p)
    {
      if !fails {
        content := Some(p);
      }
    }
  }

  const BACKSTOP_INTERVAL: int := 6 * 60 * 60

  class Counter {
    const file: File
    const persistent: bool
    var totals: Totals
    var since: string
    var haveLast: bool
    var lastPath: string
    var lastRx: nat
    var lastTx: nat
    var dirty: bool
    var lastFlush: int

    function Remembers(): Memory
      reads this
    {
      Memory(totals, if haveLast then Some(Baseline(lastPath, lastRx, lastTx)) else None)
    }

    /** The file holds what is in memory, or what a load would make of it. */
    ghost predicate InStep()
      reads this, file
    {
      || (file.content.Some? && file.content.value.(since := since) == ToPersist(Remembers(), since))
      || Remembers() == Loaded(file.content)
    }

    ghost predicate Valid()
      reads this, file
    {
      && InRange(totals)
      && (!haveLast ==> lastPath == "" && lastRx == 0 && lastTx == 0)
      && (persistent && !dirty ==> InStep())
    }

    /** Primed from the file; a missing or unreadable one (None) starts from zero. */
    constructor (file: File, persistent: bool, now: int, stamp: string)
      requires file.content.Some? ==> InRange(file.content.value.totals)
      ensures this.file == file && this.persistent == persistent && Valid()
      ensures Remembers() == if persistent then Loaded(file.content) else Memory(ZERO, None)
      ensures since == if persistent && file.content.Some? && file.content.value.since != "" then file.content.value.since else stamp
      ensures !dirty && (!persistent || file.content.None? ==> totals == Totals(0, 0, 0, 0) && !haveLast)
    {
      this.file, this.persistent := file, persistent;
      lastFlush, dirty := now, false;
      totals, since := ZERO, stamp;
      haveLast, lastPath, lastRx, lastTx := false, "", 0, 0;
      new;
      if persistent && file.content.Some? {
        var p := file.content.value;
        totals := p.totals;
        if p.since != "" {
          since := p.since;
        }
        if p.lastBearer != "" {
          haveLast, lastPath, lastRx, lastTx := true, p.lastBearer, p.lastRx, p.lastTx;
        }
      }
    }

    /** Folds one reading into the totals. */
    method Observe(s: Sample)
      requires Valid()
      modifies this
      ensures Valid() && Remembers() == Observed(old(Remembers()), s)
      ensures since == old(since) && lastFlush == old(lastFlush)
      ensures dirty <==> old(dirty) || old(Remembers()).last != Some(BaselineOf(s))
    {
      ghost var m := Remembers();
      var rx, tx := s.rx, s.tx;
      var continuing := haveLast && s.path == lastPath && rx >= lastRx && tx >= lastTx;
      if continuing {
        rx, tx := rx - lastRx, tx - lastTx;
      }
      // Whatever moves the baseline has to reach the file, even if no bytes are added.
      if !haveLast || lastPath != s.path || lastRx != s.rx || lastTx != s.tx {
        dirty := true;
      }
      haveLast, lastPath, lastRx, lastTx := true, s.path, s.rx, s.tx;
      if rx == 0 && tx == 0 {
        assert Observed(m, s).totals == totals by { AddNothing(m.totals); }
        return;
      }
      totals := totals.(rx := Add64(totals.rx, rx), tx := Add64(totals.tx, tx));
      if s.roaming {
        totals := totals.(rxRoaming := Add64(totals.rxRoaming, rx), txRoaming := Add64(totals.txRoaming, tx));
      }
    }

    /** Persists if there is anything new to write. */
    method Flush(now: int, fails: bool)
      requires Valid()
      modifies this`dirty, this`lastFlush, file
      ensures Valid() && Remembers() == old(Remembers())
      ensures if persistent && old(dirty) && !fails
              then file.content == Some(ToPersist(Remembers(), since)) && !dirty && lastFlush == now
              else file.content == old(file.content) && dirty == old(dirty) && lastFlush == old(lastFlush)
      ensures persistent && !fails && (haveLast ==> lastPath != "") ==> Loaded(file.content) == Remembers()
    {
      if !persistent || !dirty { return; }
      file.WriteAtomic(ToPersist(Remembers(), since), fails);
      if !fails {
        dirty, lastFlush := false, now;
      }
    }

    /** Persists dirty totals once the last write is long enough ago. */
    method Backstop(now: int, fails: bool)
      requires Valid()
      modifies this`dirty, this`lastFlush, file
      ensures Valid() && Remembers() == old(Remembers())
      ensures if persistent && old(dirty) && now - old(lastFlush) >= 21600 && !fails
              then file.content == Some(ToPersist(Remembers(), since)) && !dirty && lastFlush == now
              else file.content == old(file.content) && dirty == old(dirty) && lastFlush == old(lastFlush)
    {
      if !dirty || now - lastFlush < BACKSTOP_INTERVAL { return; }
      Flush(now, fails);
    }
  }

  lemma AddNothing(t: Totals)
    requires InRange(t)
    ensures Add64(t.rx, 0) == t.rx && Add64(t.tx, 0) == t.tx && Add64(t.rxRoaming, 0) == t.rxRoaming && Add64(t.txRoaming, 0) == t.txRoaming
  {
  }
}

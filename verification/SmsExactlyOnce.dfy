/** Exactly one inbox row per modem copy, over any interleaving of drains, signals,
    failed deliveries, failed deletions and restarts. */
module SmsExactlyOnce {
  import opened SmsText
  import opened SmsInbox
  import opened SmsStore
  import opened SmsProtocol

  predicate HasCopy(s: Sys, path: string, identity: Identity) {
    path in s.db.copies && s.db.copies[path].identity == identity
  }

  /** A row was once created for this copy. */
  ghost predicate WasCreated(created: seq<Creation>, path: string, c: Copy) {
    exists k :: 0 <= k < |created| && created[k] == Creation(path, c.identity, c.entry)
  }

  predicate BusyWith(work: Work, path: string) {
    match work
    case Idle => false
    case Discarding(p) => p == path
    case Deleting(p, _, _) => p == path
    case Forgetting(p) => p == path
  }

  /** A deletion of what lies under the path is under way. */
  predicate InDeletion(work: Work, path: string) {
    BusyWith(work, path) && !work.Forgetting?
  }

  /** The memory of undeleted copies never runs ahead of the durable table: what is
      remembered, or about to be deleted, is recorded there, unless it is all-empty;
      and what is recorded there was created. */
  ghost predicate CopiesSound(s: Sys) {
    && (forall p :: p in s.delivered ==> HasCopy(s, p, s.delivered[p]) || (s.work.Deleting? && s.work.path == p && !s.work.retry))
    && (s.work.Deleting? && (s.work.identity != NO_IDENTITY || !s.work.retry) ==> HasCopy(s, s.work.path, s.work.identity))
    && (s.work.Forgetting? ==> s.work.path !in s.delivered)
    && (forall p :: p in s.db.copies ==> WasCreated(s.history.created, p, s.db.copies[p]))
  }

  lemma CreatedGrows(created: seq<Creation>, last: Creation, path: string, c: Copy)
    requires WasCreated(created, path, c) || last == Creation(path, c.identity, c.entry)
    ensures WasCreated(created + [last], path, c)
  {
    var created' := created + [last];
    if WasCreated(created, path, c) {
      var k :| 0 <= k < |created| && created[k] == Creation(path, c.identity, c.entry);
      assert created'[k] == created[k];
    } else {
      assert created'[|created|] == last;
    }
  }

  lemma DeliveryKeepsCopies(s: Sys, path: string, o: Object, stamp: string, now: int, newId: Id, dialable: string -> bool, s': Sys)
    requires CopiesSound(s) && s.work.Idle? && path != "" && Delivers(s, path, o, stamp, now, newId, dialable, s')
    ensures CopiesSound(s')
    ensures HasCopy(s', path, Named(o))
    ensures if HasCopy(s, path, Named(o))
            then s'.db == s.db && s'.history.created == s.history.created
            else && s'.db.copies == s.db.copies[path := Copy(Named(o), newId)]
                 && s'.history.created == s.history.created + [Creation(path, Named(o), newId)]
  {
    hide Retained, Pruned, Admissible, WasCreated;
    if !HasCopy(s, path, Named(o)) {
      forall p | p in s'.db.copies ensures WasCreated(s'.history.created, p, s'.db.copies[p]) {
        CreatedGrows(s.history.created, Creation(path, Named(o), newId), p, s'.db.copies[p]);
      }
    }
  }

  /** What a step may do to the durable copies: add one by a delivery, drop one by forgetting. */
  ghost predicate CopiesUntouched(s: Sys, s': Sys) {
    s'.db.copies == s.db.copies && s'.history.created == s.history.created
  }

  lemma OtherStepsLeaveCopies(s: Sys, step: Step, s': Sys, dialable: string -> bool)
    requires Next(s, step, s', dialable) && !step.Receive? && !step.Forget?
    ensures CopiesUntouched(s, s')
    ensures step.Restart? ==> s'.work == Idle
    ensures step.DeleteCopy? || step.Restart? || (s'.work == s.work && s'.delivered == s.delivered)
  {
    hide Purge, Swept, Pruned, Usable, ValidDestination, Without, Finished, Recovered;
  }

  lemma StepKeepsCopies(s: Sys, step: Step, s': Sys, dialable: string -> bool)
    requires Next(s, step, s', dialable) && CopiesSound(s)
    ensures CopiesSound(s')
  {
    hide WasCreated, Purge, Retained, Recorded, Reserves, Configures, Aged, Removed, Finished, Recovered;
    match step
    case Receive(path, stamp, now, newId) =>
      if s'.work.Deleting? && !s'.work.retry {
        DeliveryKeepsCopies(s, path, s.modem[path], stamp, now, newId, dialable, s');
      }
    case DeleteCopy => OtherStepsLeaveCopies(s, step, s', dialable);
    case Restart => OtherStepsLeaveCopies(s, step, s', dialable);
    case Forget =>
      assert forall p :: p in s'.db.copies ==> p in s.db.copies && s'.db.copies[p] == s.db.copies[p];
    case _ =>
      OtherStepsLeaveCopies(s, step, s', dialable);
      CopiesDepend(s, s');
  }

  /** Only these parts of the state matter to the copies. */
  lemma CopiesDepend(s: Sys, s': Sys)
    requires CopiesSound(s) && CopiesUntouched(s, s') && s'.work == s.work && s'.delivered == s.delivered
    ensures CopiesSound(s')
  {
  }

  lemma {:induction false} ReachableCopies(ss: seq<Sys>, steps: seq<Step>, dialable: string -> bool, i: nat)
    requires IsHistory(ss, steps, dialable) && i < |ss|
    ensures CopiesSound(ss[i])
    decreases i
  {
    hide Next;
    if i > 0 {
      ReachableCopies(ss, steps, dialable, i - 1);
      assert Next(ss[i - 1], steps[i - 1], ss[i], dialable);
      StepKeepsCopies(ss[i - 1], steps[i - 1], ss[i], dialable);
    }
  }

  /** Never deleted unrecorded, as far as the manager knows: whenever it requests the
      deletion of an inbound text that it read with a non-empty identity, the record of
      that identity has committed: the durable table holds it, and its row was created. */
  lemma NeverDeletedUnrecorded(ss: seq<Sys>, steps: seq<Step>, dialable: string -> bool, i: nat)
    requires IsHistory(ss, steps, dialable) && i < |steps| && steps[i].DeleteCopy?
    requires ss[i].work.Deleting? && ss[i].work.identity != NO_IDENTITY
    ensures HasCopy(ss[i], ss[i].work.path, ss[i].work.identity)
    ensures WasCreated(ss[i].history.created, ss[i].work.path, ss[i].db.copies[ss[i].work.path])
  {
    ReachableCopies(ss, steps, dialable, i);
  }

  /** The boundary: a copy the process does not remember goes to deletion without a
      delivery exactly when its identity is all-empty. */
  lemma UnrememberedSkipsDeliveryIffEmpty(s: Sys, path: string, stamp: string, now: int, newId: Id, s': Sys, dialable: string -> bool)
    requires Next(s, Receive(path, stamp, now, newId), s', dialable) && s' != s
    requires path in s.modem && InboundText(s.modem[path]) && path !in s.delivered
    ensures s'.work == Deleting(path, Named(s.modem[path]), true) <==> Named(s.modem[path]) == Identity("", "", "")
    ensures Named(s.modem[path]) == Identity("", "", "") ==> s'.db == s.db
    ensures Named(s.modem[path]) != Identity("", "", "") ==> HasCopy(s', path, Named(s.modem[path]))
  {
    hide Retained, Pruned, Admissible;
  }

  // ----- one copy, from its arrival on -----

  function CountFor(created: seq<Creation>, path: string): nat {
    if created == [] then 0
    else CountFor(created[..|created| - 1], path) + (if created[|created| - 1].path == path then 1 else 0)
  }

  /** The copy `o` stays under `path`; work on that path, if any, is on this copy. */
  predicate Persists(s: Sys, path: string, o: Object) {
    path in s.modem && s.modem[path] == o && (BusyWith(s.work, path) ==> s.work.Deleting? && s.work.identity == Named(o))
  }

  predicate Kept(ss: seq<Sys>, path: string, o: Object, i: nat, j: nat)
    requires i <= j <= |ss|
  {
    forall k :: i <= k < j ==> path in ss[k].modem && ss[k].modem[path] == o
  }

  lemma CountForGrows(created: seq<Creation>, c: Creation, path: string)
    ensures CountFor(created + [c], path) == CountFor(created, path) + (if c.path == path then 1 else 0)
  {
    assert (created + [c])[..|created|] == created;
  }

  /** The effect of a step on a persisting copy and on the count of its rows. */
  ghost predicate Tracks(s: Sys, s': Sys, path: string, o: Object) {
    && (HasCopy(s, path, Named(o)) ==> HasCopy(s', path, Named(o)))
    && CountFor(s'.history.created, path) ==
       CountFor(s.history.created, path) + (if HasCopy(s', path, Named(o)) && !HasCopy(s, path, Named(o)) then 1 else 0)
    && (path in s'.modem && s'.modem[path] == o ==> Persists(s', path, o))
  }

  lemma ReceiveTracks(s: Sys, step: Step, s': Sys, dialable: string -> bool, path: string, o: Object)
    requires Next(s, step, s', dialable) && step.Receive? && CopiesSound(s) && Persists(s, path, o)
    requires InboundText(o)
    ensures Tracks(s, s', path, o)
  {
    hide WasCreated, Recorded;
    var p := step.path;
    if s'.work.Deleting? && !s'.work.retry {
      DeliveryKeepsCopies(s, p, s.modem[p], step.stamp, step.now, step.newId, dialable, s');
      if !HasCopy(s, p, Named(s.modem[p])) {
        CountForGrows(s.history.created, Creation(p, Named(s.modem[p]), step.newId), path);
      }
    }
  }

  /** One step while the copy persists. */
  lemma StepTracks(s: Sys, step: Step, s': Sys, dialable: string -> bool, path: string, o: Object)
    requires Next(s, step, s', dialable) && CopiesSound(s) && Persists(s, path, o)
    requires InboundText(o) && Named(o) != NO_IDENTITY
    ensures Tracks(s, s', path, o)
  {
    if step.Receive? {
      ReceiveTracks(s, step, s', dialable, path, o);
    } else if step.Forget? {
      hide CopiesSound, InboundText;
    } else {
      hide CopiesSound, InboundText, Reserves, Configures, Aged, Removed, Finished, Recovered;
      OtherStepsLeaveCopies(s, step, s', dialable);
      if !step.DeleteCopy? {
        hide Next;
      }
    }
  }

  /** From `i` on the manager has been busy with the path all along, as it was when the
      copy came, and nothing has been recorded or forgotten. */
  ghost predicate StillBusy(ss: seq<Sys>, i: nat, j: nat, path: string)
    requires i <= j < |ss|
  {
    && BusyWith(ss[i].work, path)
    && forall k :: i <= k <= j ==> ss[k].work == ss[i].work && CopiesUntouched(ss[i], ss[k])
  }

  /** At some time from `i` to `j` the durable table does not know the copy. */
  ghost predicate OnceUnknown(ss: seq<Sys>, i: nat, j: nat, path: string, identity: Identity)
    requires i <= j < |ss|
  {
    exists k :: i <= k <= j && !HasCopy(ss[k], path, identity)
  }

  /** One step while the manager is still busy with what the path held before. */
  lemma BusyStep(ss: seq<Sys>, i: nat, j: nat, step: Step, s': Sys, dialable: string -> bool, path: string, o: Object)
    requires i <= j < |ss| && StillBusy(ss, i, j, path) && Next(ss[j], step, s', dialable)
    ensures s'.history.created == ss[i].history.created
    ensures HasCopy(s', path, Named(o)) ==> HasCopy(ss[i], path, Named(o))
    ensures path in s'.modem && s'.modem[path] == o ==>
              Persists(s', path, o) || (s'.work == ss[i].work && CopiesUntouched(ss[i], s'))
  {
    if step.Forget? {
      hide InboundText;
    } else {
      hide Reserves, Configures, Aged, Removed, Finished, Recovered, InboundText;
      OtherStepsLeaveCopies(ss[j], step, s', dialable);
    }
  }

  /** Exactly once. Take an inbound text with a non-empty identity, kept under its path
      from `i` until `j`, whatever the manager was doing when it came. Over any interleaving,
      exactly one row is created for it if it is recorded in the end and was unknown to the
      durable table at some time, and otherwise none. */
  lemma {:induction false} ExactlyOnce(ss: seq<Sys>, steps: seq<Step>, dialable: string -> bool, i: nat, j: nat, path: string, o: Object)
    requires IsHistory(ss, steps, dialable) && i <= j < |ss| && Kept(ss, path, o, i, j)
    requires InboundText(o) && Named(o) != NO_IDENTITY && path in ss[i].modem && ss[i].modem[path] == o
    ensures CountFor(ss[j].history.created, path) - CountFor(ss[i].history.created, path) ==
            if HasCopy(ss[j], path, Named(o)) && OnceUnknown(ss, i, j, path, Named(o)) then 1 else 0
    ensures path in ss[j].modem && ss[j].modem[path] == o ==> Persists(ss[j], path, o) || StillBusy(ss, i, j, path)
    decreases j
  {
    hide Next, CopiesSound, InboundText, CountFor, HasCopy, BusyWith;
    if i < j {
      ExactlyOnce(ss, steps, dialable, i, j - 1, path, o);
      assert path in ss[j - 1].modem && ss[j - 1].modem[path] == o;
      assert Next(ss[j - 1], steps[j - 1], ss[j], dialable);
      ReachableCopies(ss, steps, dialable, j - 1);
      if Persists(ss[j - 1], path, o) {
        StepTracks(ss[j - 1], steps[j - 1], ss[j], dialable, path, o);
        UnknownGrows(ss, i, j, path, Named(o));
      } else {
        BusyStep(ss, i, j - 1, steps[j - 1], ss[j], dialable, path, o);
        BusyKnows(ss, i, j, path, Named(o));
      }
    } else {
      hide Persists;
      CameToIt(ss[i], path, o);
    }
  }

  lemma CameToIt(s: Sys, path: string, o: Object)
    requires path in s.modem && s.modem[path] == o
    ensures Persists(s, path, o) || BusyWith(s.work, path)
  {
  }

  lemma UnknownGrows(ss: seq<Sys>, i: nat, j: nat, path: string, identity: Identity)
    requires i < j < |ss|
    ensures OnceUnknown(ss, i, j, path, identity) <==>
            OnceUnknown(ss, i, j - 1, path, identity) || !HasCopy(ss[j], path, identity)
    ensures !HasCopy(ss[j - 1], path, identity) ==> OnceUnknown(ss, i, j - 1, path, identity)
  {
    hide HasCopy;
    if k :| i <= k <= j && !HasCopy(ss[k], path, identity) {
      if k < j {
        assert i <= k <= j - 1;
      }
    }
  }

  lemma BusyKnows(ss: seq<Sys>, i: nat, j: nat, path: string, identity: Identity)
    requires i < j < |ss| && StillBusy(ss, i, j - 1, path)
    requires HasCopy(ss[j], path, identity) ==> HasCopy(ss[i], path, identity)
    ensures HasCopy(ss[j], path, identity) ==> !OnceUnknown(ss, i, j, path, identity)
  {
    if HasCopy(ss[j], path, identity) {
      forall k | i <= k <= j ensures HasCopy(ss[k], path, identity) {
        assert k < j ==> CopiesUntouched(ss[i], ss[k]);
      }
    }
  }

  /** By the time such a copy is deleted, exactly one row has been created for it since it
      arrived, provided it came neither to a known identical copy nor into a deletion. */
  lemma DeletedAfterExactlyOneRow(ss: seq<Sys>, steps: seq<Step>, dialable: string -> bool, i: nat, j: nat, path: string, o: Object)
    requires IsHistory(ss, steps, dialable) && i < j < |ss| && Kept(ss, path, o, i, j)
    requires InboundText(o) && Named(o) != NO_IDENTITY && !InDeletion(ss[i].work, path) && !HasCopy(ss[i], path, Named(o))
    requires steps[j - 1].DeleteCopy? && BusyWith(ss[j - 1].work, path)
    ensures CountFor(ss[j].history.created, path) == CountFor(ss[i].history.created, path) + 1
  {
    hide InboundText, CountFor;
    assert path in ss[i].modem && ss[i].modem[path] == o;
    assert path in ss[j - 1].modem && ss[j - 1].modem[path] == o;
    ExactlyOnce(ss, steps, dialable, i, j, path, o);
    ExactlyOnce(ss, steps, dialable, i, j - 1, path, o);
    assert Next(ss[j - 1], steps[j - 1], ss[j], dialable);
    ReachableCopies(ss, steps, dialable, j - 1);
    OtherStepsLeaveCopies(ss[j - 1], steps[j - 1], ss[j], dialable);
  }
}

/** Texts lost to a deletion that was meant for something else under the same path. The
    modem's object is named by its path alone, and the manager reads it, delivers it and
    deletes it in three calls. */
module SmsTakenOver {
  import opened SmsStore
  import opened SmsProtocol
  import opened SmsExactlyOnce

  /** Under the path lies an inbound text with a non-empty identity that nobody recorded. */
  predicate Unrecorded(s: Sys, path: string, o: Object) {
    && path in s.modem && s.modem[path] == o
    && InboundText(o) && Named(o) != NO_IDENTITY && !HasCopy(s, path, Named(o))
  }

  /** The text stays where it is until a deletion takes it, unrecorded. */
  ghost predicate IsLost(ss: seq<Sys>, steps: seq<Step>, path: string, o: Object)
    requires |ss| == |steps| + 1
  {
    var n := |steps| - 1;
    && n >= 0 && Kept(ss, path, o, 0, n + 1)
    && steps[n].DeleteCopy? && Unrecorded(ss[n], path, o) && path !in ss[n + 1].modem
  }

  ghost predicate MayBeLost(s: Sys, path: string, o: Object, dialable: string -> bool) {
    exists ss: seq<Sys>, steps: seq<Step> :: IsRun(ss, steps, dialable) && ss[0] == s && IsLost(ss, steps, path, o)
  }

  /** What the manager is about to delete under the path, if anything, is this text. */
  predicate Attends(s: Sys, path: string, o: Object) {
    InDeletion(s.work, path) ==> s.work.Deleting? && s.work.identity == Named(o)
  }

  lemma StepAttends(s: Sys, step: Step, s': Sys, dialable: string -> bool, path: string, o: Object)
    requires Next(s, step, s', dialable) && path in s.modem && s.modem[path] == o && InboundText(o)
    requires Attends(s, path, o)
    ensures Attends(s', path, o)
  {
    hide Recorded, Reserves, Configures, Aged, Removed, Finished, Recovered;
    if !step.Receive? && !step.Forget? {
      OtherStepsLeaveCopies(s, step, s', dialable);
    }
  }

  lemma {:induction false} RunAttends(ss: seq<Sys>, steps: seq<Step>, dialable: string -> bool, n: nat, path: string, o: Object)
    requires IsRun(ss, steps, dialable) && n <= |steps| && Kept(ss, path, o, 0, n) && InboundText(o)
    requires CopiesSound(ss[0]) && Attends(ss[0], path, o)
    ensures CopiesSound(ss[n]) && Attends(ss[n], path, o)
    decreases n
  {
    hide Next, CopiesSound, InboundText, Attends;
    if n > 0 {
      RunAttends(ss, steps, dialable, n - 1, path, o);
      assert Next(ss[n - 1], steps[n - 1], ss[n], dialable);
      StepKeepsCopies(ss[n - 1], steps[n - 1], ss[n], dialable);
      StepAttends(ss[n - 1], steps[n - 1], ss[n], dialable, path, o);
    }
  }

  lemma DeletionTakesAttended(s: Sys, s': Sys, dialable: string -> bool, path: string, o: Object)
    requires Next(s, DeleteCopy, s', dialable) && CopiesSound(s) && Attends(s, path, o) && Unrecorded(s, path, o)
    ensures path in s'.modem
  {
  }

  lemma DeletionMayTake(s: Sys, dialable: string -> bool, path: string) returns (s': Sys)
    requires InDeletion(s.work, path)
    ensures Next(s, DeleteCopy, s', dialable) && path !in s'.modem
  {
    if s.work.Discarding? {
      s' := s.(modem := s.modem - {path}, work := Idle);
    } else {
      s' := s.(modem := s.modem - {path}, delivered := s.delivered - {path}, work := Forgetting(path),
               history := s.history.(deletions := s.history.deletions + [Deletion(path, s.work.identity)]));
    }
  }

  /** In any reachable state an unrecorded inbound text may be deleted as such exactly if a
      deletion under its path is under way. */
  lemma LostIffInDeletion(ss: seq<Sys>, steps: seq<Step>, dialable: string -> bool, i: nat, path: string, o: Object)
    requires IsHistory(ss, steps, dialable) && i < |ss| && Unrecorded(ss[i], path, o)
    ensures MayBeLost(ss[i], path, o, dialable) <==> InDeletion(ss[i].work, path)
  {
    hide Next, InDeletion, CopiesSound, HasCopy, InboundText;
    var s := ss[i];
    ReachableCopies(ss, steps, dialable, i);
    if MayBeLost(s, path, o, dialable) && !InDeletion(s.work, path) {
      var after: seq<Sys>, went: seq<Step> :| IsRun(after, went, dialable) && after[0] == s && IsLost(after, went, path, o);
      var n := |went| - 1;
      assert Attends(s, path, o);
      RunAttends(after, went, dialable, n, path, o);
      assert Next(after[n], went[n], after[n + 1], dialable);
      DeletionTakesAttended(after[n], after[n + 1], dialable, path, o);
      assert false;
    }
    if InDeletion(s.work, path) {
      var s' := DeletionMayTake(s, dialable, path);
      NoRun(s, dialable);
      var after, went := RunGrows([s], [], DeleteCopy, s', dialable);
      assert IsLost(after, went, path, o);
    }
  }

  /** So a text that arrives unrecorded may be lost exactly if it arrives into a deletion
      that is under way under its path. */
  lemma LostIffTakenOver(ss: seq<Sys>, steps: seq<Step>, dialable: string -> bool, a: nat, path: string, o: Object)
    requires IsHistory(ss, steps, dialable) && a < |steps| && steps[a] == Arrive(path, o)
    requires InboundText(o) && Named(o) != NO_IDENTITY && !HasCopy(ss[a], path, Named(o))
    ensures MayBeLost(ss[a + 1], path, o, dialable) <==> InDeletion(ss[a].work, path)
  {
    assert Next(ss[a], steps[a], ss[a + 1], dialable);
    hide InDeletion, MayBeLost, InboundText;
    LostIffInDeletion(ss, steps, dialable, a + 1, path, o);
  }

  /** And only such texts are ever in that place: an unrecorded text under a path with a
      deletion under way arrived there after that deletion had begun. */
  lemma {:induction false} TookOver(ss: seq<Sys>, steps: seq<Step>, dialable: string -> bool, i: nat, path: string, o: Object) returns (a: nat)
    requires IsHistory(ss, steps, dialable) && i < |ss| && Unrecorded(ss[i], path, o) && InDeletion(ss[i].work, path)
    ensures a < i && steps[a] == Arrive(path, o) && ss[a].work == ss[i].work
    decreases i
  {
    hide CopiesSound, Unrecorded, InDeletion;
    if i > 0 {
      assert Next(ss[i - 1], steps[i - 1], ss[i], dialable);
      ReachableCopies(ss, steps, dialable, i);
      hide Next;
      a := i - 1;
      if steps[i - 1] != Arrive(path, o) {
        WasThere(ss[i - 1], steps[i - 1], ss[i], dialable, path, o);
        a := TookOver(ss, steps, dialable, i - 1, path, o);
      } else {
        ArrivalLeavesWork(ss[i - 1], steps[i - 1], ss[i], dialable);
      }
    } else {
      NothingAtFirst(ss[0], path);
    }
  }

  lemma ArrivalLeavesWork(s: Sys, step: Step, s': Sys, dialable: string -> bool)
    requires Next(s, step, s', dialable) && step.Arrive?
    ensures s'.work == s.work
  {
  }

  lemma NothingAtFirst(s: Sys, path: string)
    requires Init(s)
    ensures !InDeletion(s.work, path)
  {
  }

  lemma WasThere(s: Sys, step: Step, s': Sys, dialable: string -> bool, path: string, o: Object)
    requires Next(s, step, s', dialable) && CopiesSound(s') && step != Arrive(path, o)
    requires Unrecorded(s', path, o) && InDeletion(s'.work, path)
    ensures Unrecorded(s, path, o) && s.work == s'.work
  {
    hide Recorded, Reserved, Configured, Aged, Removed, Finished, Recovered, Target;
    if !step.Receive? && !step.Forget? {
      OtherStepsLeaveCopies(s, step, s', dialable);
    }
  }
}

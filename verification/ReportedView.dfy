/** The view as it would be if the master were told at once of all that calls under way have
    done so far: it is sound in every state of runs whose calls never remove what another
    call adds. */
module ReportedView {
  import opened Interpreter
  import opened Cluster
  import opened KnownPeers
  import opened ConcurrentSteps
  import opened ConcurrentView

  /** An addition is unreported or still to come. */
  ghost predicate LiveAdds(p: Phase, m: string, k: string) {
    LastOf(Pending(p), m, k) == Added || AddsIn(Rest(p), m, k)
  }

  ghost predicate LiveRemoves(p: Phase, m: string, k: string) {
    RemovesIn(Rest(p), m, k)
  }

  /** Neither call has still to remove what the other adds, be it for a while. */
  ghost predicate NeverMeet(p: Phase, q: Phase) {
    forall m, k ::
      !(LiveAdds(p, m, k) && LiveRemoves(q, m, k)) && !(LiveRemoves(p, m, k) && LiveAdds(q, m, k))
  }

  ghost predicate AddPending(s: System, m: string, k: string) {
    exists t <- s.threads.Keys :: LastOf(Pending(s.threads[t]), m, k) == Added
  }

  ghost predicate DropPending(s: System, m: string, k: string) {
    exists t <- s.threads.Keys :: LastOf(Pending(s.threads[t]), m, k) == Dropped
  }

  /** Where nothing is stored, the calls have no addition to report, and have a drop to report
      of what the view claims. */
  ghost predicate SparedSoFar(s: System) {
    forall m, k :: !Held(s, m, k) ==>
      !AddPending(s, m, k) && (InView(s.view, m, k) ==> DropPending(s, m, k))
  }

  /** Stricter than `Tame` on starts and deaths. */
  ghost predicate Strict(s: System, step: Step)
    requires Enabled(s, step)
  {
    && MeetsOneToOne(s, step)
    && match step
       case Begin(t, op, key, value) =>
         forall c <- s.threads.Keys :: c != t ==> NeverMeet(Begun(s, t, op, key, value), s.threads[c])
       case Crash(client) => SparedSoFar(Crashed(s, client))
       case _ => true
  }

  ghost predicate NoneMeet(s: System) {
    forall c <- s.threads.Keys, d <- s.threads.Keys :: c != d ==> NeverMeet(s.threads[c], s.threads[d])
  }

  ghost predicate StrictInv(s: System) {
    Base(s) && NoneMeet(s) && SparedSoFar(s)
  }

  /** What never meets ends up apart. */
  lemma {:induction false} NeverMeetIsApart(p: Phase, q: Phase)
    requires NeverMeet(p, q)
    ensures Apart(p, q)
  {
    forall m, k
      ensures !(FinalOf(p, m, k) == Added && NetOf(q, m, k) == Dropped)
      ensures !(NetOf(p, m, k) == Dropped && FinalOf(q, m, k) == Added)
    {
      NetsAgree(Rest(p), m, k);
      NetsAgree(Rest(q), m, k);
      assert FinalOf(p, m, k) == Added ==> LiveAdds(p, m, k);
      assert FinalOf(q, m, k) == Added ==> LiveAdds(q, m, k);
    }
  }

  // ---- Steps ---------------------------------------------------------------------------

  ghost predicate LivesMove(s: System, s': System, t: Thread, m: string, k: string)
    requires t in s.threads && t in s'.threads
  {
    var p, p' := s.threads[t], s'.threads[t];
    var pending, pending' := LastOf(Pending(p), m, k), LastOf(Pending(p'), m, k);
    && (LiveAdds(p', m, k) ==> LiveAdds(p, m, k)) && (LiveRemoves(p', m, k) ==> LiveRemoves(p, m, k))
    && (!Held(s', m, k) ==>
          && (Held(s, m, k) ==> LiveRemoves(p, m, k) && pending' == Dropped)
          && (!Held(s, m, k) && pending' == Added ==> pending == Added)
          && (!Held(s, m, k) && InView(s'.view, m, k) && pending' != Dropped ==>
                pending == Added || (InView(s.view, m, k) && pending != Dropped)))
  }

  lemma {:induction false} MoveLives(s: System, s': System, t: Thread, m: string, k: string)
    requires t in s.threads && t in s'.threads && MovesAt(s, s', t, m, k)
    ensures LivesMove(s, s', t, m, k)
  {
    var o, o' := OutlookOf(s.threads[t], m, k), OutlookOf(s'.threads[t], m, k);
    if inStore, inView :|
      && Performed(o, o', inStore, inView, m, k)
      && (Held(s', m, k) <==> After(inStore, Held(s, m, k)))
      && (InView(s'.view, m, k) <==> InView(s.view, m, k))
    {
    } else {
      var touch :| Reported(o, o', touch)
        && (Held(s', m, k) <==> Held(s, m, k))
        && (InView(s'.view, m, k) <==> After(touch, InView(s.view, m, k)));
    }
  }

  lemma {:induction false} MoveKeepsNoneMeet(s: System, s': System, t: Thread)
    requires NoneMeet(s) && CallMoves(s, s', t)
    ensures NoneMeet(s')
  {
    forall c <- s.threads.Keys, d <- s.threads.Keys | c != d ensures NeverMeet(s'.threads[c], s'.threads[d]) {
      assert NeverMeet(s.threads[c], s.threads[d]);
      forall m, k
        ensures !(LiveAdds(s'.threads[c], m, k) && LiveRemoves(s'.threads[d], m, k))
        ensures !(LiveRemoves(s'.threads[c], m, k) && LiveAdds(s'.threads[d], m, k))
      {
        assert MovesAt(s, s', t, m, k);
        MoveLives(s, s', t, m, k);
      }
    }
  }

  /** The other calls have the same to report as before. */
  lemma {:induction false} OthersPending(s: System, s': System, t: Thread, m: string, k: string)
    requires LocalMove(s, s', t)
    ensures AddPending(s', m, k) ==>
              LastOf(Pending(s'.threads[t]), m, k) == Added
              || exists c <- s.threads.Keys :: c != t && LastOf(Pending(s.threads[c]), m, k) == Added
    ensures DropPending(s, m, k) ==> DropPending(s', m, k) || LastOf(Pending(s.threads[t]), m, k) == Dropped
    ensures LastOf(Pending(s'.threads[t]), m, k) == Dropped ==> DropPending(s', m, k)
    ensures LastOf(Pending(s.threads[t]), m, k) == Added ==> AddPending(s, m, k)
  {
    if c :| c in s.threads && LastOf(Pending(s.threads[c]), m, k) == Dropped && c != t {
      assert LastOf(Pending(s'.threads[c]), m, k) == Dropped;
    }
  }

  lemma {:induction false} MoveKeepsSoFarAt(s: System, s': System, t: Thread, m: string, k: string)
    requires NoneMeet(s) && SparedSoFar(s) && LocalMove(s, s', t) && MovesAt(s, s', t, m, k)
    requires !Held(s', m, k)
    ensures !AddPending(s', m, k) && (InView(s'.view, m, k) ==> DropPending(s', m, k))
  {
    MoveLives(s, s', t, m, k);
    OthersPending(s, s', t, m, k);
    if Held(s, m, k) {
      forall c <- s.threads.Keys | c != t ensures LastOf(Pending(s.threads[c]), m, k) != Added {
        assert NeverMeet(s.threads[c], s.threads[t]);
        assert !LiveAdds(s.threads[c], m, k);
      }
    } else {
      assert !AddPending(s, m, k);
    }
  }

  lemma {:induction false} MoveKeepsStrictInv(s: System, step: Step)
    requires StrictInv(s) && Enabled(s, step) && CallStep(step) && !step.Begin?
    ensures StrictInv(Next(s, step))
  {
    var s', t := Next(s, step), step.thread;
    CallStepMoves(s, step);
    MoveKeepsNoneMeet(s, s', t);
    forall m, k | !Held(s', m, k)
      ensures !AddPending(s', m, k) && (InView(s'.view, m, k) ==> DropPending(s', m, k))
    {
      MoveKeepsSoFarAt(s, s', t, m, k);
    }
  }

  lemma {:induction false} BeginKeepsSoFar(s: System, t: Thread, p: Phase)
    requires SparedSoFar(s) && t in s.threads && s.threads[t].Idle? && Pending(p) == []
    ensures SparedSoFar(WithPhase(s, t, p))
  {
    var s' := WithPhase(s, t, p);
    assert Pending(Idle) == [];
    forall m, k | !Held(s', m, k)
      ensures !AddPending(s', m, k) && (InView(s'.view, m, k) ==> DropPending(s', m, k))
    {
      assert !Held(s, m, k) && !AddPending(s, m, k);
      assert forall c <- s.threads.Keys :: Pending(s'.threads[c]) == Pending(s.threads[c]);
      if c :| c in s.threads && LastOf(Pending(s.threads[c]), m, k) == Dropped {
        assert LastOf(Pending(s'.threads[c]), m, k) == Dropped;
      }
    }
  }

  lemma {:induction false} BeginKeepsStrictInv(s: System, step: Step)
    requires StrictInv(s) && Enabled(s, step) && Strict(s, step) && step.Begin?
    ensures StrictInv(Next(s, step))
  {
    var t, p := step.thread, Begun(s, step.thread, step.op, step.key, step.value);
    BeginKeepsBase(s, step);
    BeginKeepsSoFar(s, t, p);
    forall c <- s.threads.Keys | c != t ensures NeverMeet(s.threads[c], p) {
      assert NeverMeet(p, s.threads[c]);
    }
  }

  lemma {:induction false} IdleNeverMeets(p: Phase)
    ensures NeverMeet(Idle, p) && NeverMeet(p, Idle)
  {
    assert Pending(Idle) == [] && Rest(Idle) == [];
  }

  lemma {:induction false} CrashKeepsStrictInv(s: System, client: string)
    requires StrictInv(s) && client in s.rules && SparedSoFar(Crashed(s, client))
    ensures StrictInv(Crashed(s, client))
  {
    var s' := Crashed(s, client);
    CrashKeepsBase(s, client);
    forall c <- s.threads.Keys, d <- s.threads.Keys | c != d ensures NeverMeet(s'.threads[c], s'.threads[d]) {
      assert NeverMeet(s.threads[c], s.threads[d]);
      IdleNeverMeets(s'.threads[c]);
      IdleNeverMeets(s'.threads[d]);
    }
  }

  lemma {:induction false} QuietKeepsSoFar(s: System, s': System)
    requires SparedSoFar(s) && Quiet(s, s')
    ensures SparedSoFar(s')
  {
    forall m, k | !Held(s', m, k)
      ensures !AddPending(s', m, k) && (InView(s'.view, m, k) ==> DropPending(s', m, k))
    {
      assert !Held(s, m, k);
      assert AddPending(s, m, k) == AddPending(s', m, k) && DropPending(s, m, k) == DropPending(s', m, k);
    }
  }

  lemma {:induction false} StepKeepsStrictInv(s: System, step: Step)
    requires StrictInv(s) && Enabled(s, step) && Strict(s, step)
    ensures StrictInv(Next(s, step))
  {
    if step.Begin? {
      BeginKeepsStrictInv(s, step);
    } else if CallStep(step) {
      MoveKeepsStrictInv(s, step);
    } else if step.Crash? {
      CrashKeepsStrictInv(s, step.client);
    } else {
      OtherStepIsQuiet(s, step);
      QuietKeepsSoFar(s, Next(s, step));
    }
  }

  // ---- Whole runs ----------------------------------------------------------------------

  ghost predicate IsStrictPath(run: seq<System>, steps: seq<Step>) {
    IsPath(run, steps)
    && forall i :: 0 <= i < |steps| ==> StepTo(run[i], steps[i], run[i + 1]) && Strict(run[i], steps[i])
  }

  lemma {:induction false} StrictPathKeepsInv(run: seq<System>, steps: seq<Step>)
    requires IsStrictPath(run, steps) && StrictInv(run[0])
    ensures StrictInv(run[|steps|])
  {
    var n := |steps|;
    if n > 0 {
      StrictPathKeepsInv(run[..n], steps[..n - 1]);
      assert StepTo(run[n - 1], steps[n - 1], run[n]);
      StepKeepsStrictInv(run[n - 1], steps[n - 1]);
    }
  }

  /** All pending changes, call by call in the given order. */
  function PendingInOrder(s: System, order: seq<Thread>): seq<Change>
    requires forall t <- order :: t in s.threads
  {
    if order == [] then []
    else PendingInOrder(s, order[..|order| - 1]) + Pending(s.threads[order[|order| - 1]])
  }

  lemma {:induction false} PendingInOrderTold(s: System, order: seq<Thread>, m: string, k: string)
    requires forall t <- order :: t in s.threads
    ensures LastOf(PendingInOrder(s, order), m, k) == Added ==> AddPending(s, m, k)
    ensures LastOf(PendingInOrder(s, order), m, k) == Untouched ==>
              forall t <- order :: LastOf(Pending(s.threads[t]), m, k) == Untouched
    ensures LastOf(PendingInOrder(s, order), m, k) == Dropped ==> DropPending(s, m, k)
  {
    if order != [] {
      var before, last := order[..|order| - 1], order[|order| - 1];
      PendingInOrderTold(s, before, m, k);
      LastOfAppend(PendingInOrder(s, before), Pending(s.threads[last]), m, k);
      assert order == before + [last];
    }
  }

  /** Making all unreported changes, call by call in the order, gives a view of really
      stored keys only. */
  ghost predicate SoundOnReport(s: System, order: seq<Thread>)
    requires forall t <- order :: t in s.threads
  {
    forall m, k :: InView(ApplyAll(s.view, PendingInOrder(s, order)), m, k) ==> Held(s, m, k)
  }

  /** Every call once. */
  ghost predicate IsOrder(s: System, order: seq<Thread>) {
    multiset(order) == multiset(s.threads.Keys)
  }

  lemma {:induction false} OrderIsOfThreads(s: System, order: seq<Thread>)
    requires IsOrder(s, order)
    ensures forall t :: t in order <==> t in s.threads
  {
    forall t ensures t in order <==> t in s.threads {
      assert t in order <==> t in multiset(order);
      assert t in s.threads.Keys <==> t in multiset(s.threads.Keys);
    }
  }

  /** In every state of a strict run, making all unreported changes, in any order of the
      calls, gives a view of really stored keys only. */
  lemma {:induction false} ReportingGivesSoundView(run: seq<System>, steps: seq<Step>, order: seq<Thread>)
    requires IsStrictPath(run, steps) && Initial(run[0]) && IsOrder(run[|steps|], order)
    ensures forall t <- order :: t in run[|steps|].threads
    ensures SoundOnReport(run[|steps|], order)
  {
    assert Pending(Idle) == [] && Rest(Idle) == [] && Body(Idle) == [];
    StrictPathKeepsInv(run, steps);
    OrderIsOfThreads(run[|steps|], order);
    SparedIsSoundOnReport(run[|steps|], order);
  }

  lemma {:induction false} SparedIsSoundOnReport(s: System, order: seq<Thread>)
    requires SparedSoFar(s) && forall t :: t in order <==> t in s.threads
    ensures SoundOnReport(s, order)
  {
    forall m, k | InView(ApplyAll(s.view, PendingInOrder(s, order)), m, k) ensures Held(s, m, k) {
      InViewAfterChanges(s.view, PendingInOrder(s, order), m, k);
      PendingInOrderTold(s, order, m, k);
    }
  }
}

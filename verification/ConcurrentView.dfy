/** Soundness of the master's view over every interleaving of calls, with managers joining,
    stopping and rejoining: once no call is under way, every key of the view is stored. */
module ConcurrentView {
  import opened Messages
  import opened Interpreter
  import opened Cluster
  import opened KnownPeers
  import opened ConcurrentSteps

  // ---- What a call will have done in the end ----------------------------------------

  /** What the call's whole report will have done to the pair in the view. */
  function FinalOf(p: Phase, m: string, k: string): Last {
    Then(LastOf(Pending(p), m, k), ViewNet(Rest(p), m, k))
  }

  /** What the call has still to do to the pair in the stores. */
  function NetOf(p: Phase, m: string, k: string): Last {
    StoreNet(Rest(p), m, k)
  }

  /** Neither call ends up removing what the other ends up reporting as added. */
  ghost predicate Apart(p: Phase, q: Phase) {
    forall m, k ::
      && !(FinalOf(p, m, k) == Added && NetOf(q, m, k) == Dropped)
      && !(NetOf(p, m, k) == Dropped && FinalOf(q, m, k) == Added)
  }

  /** Some call ends up writing the pair. */
  ghost predicate WriteComing(s: System, m: string, k: string) {
    exists t <- s.threads.Keys :: NetOf(s.threads[t], m, k) == Added
  }

  ghost predicate DropComing(s: System, m: string, k: string) {
    exists t <- s.threads.Keys :: FinalOf(s.threads[t], m, k) == Dropped
  }

  ghost predicate AddComing(s: System, m: string, k: string) {
    exists t <- s.threads.Keys :: FinalOf(s.threads[t], m, k) == Added
  }

  // ---- What the environment is asked for ----------------------------------------

  /** Where nothing is stored nor will be, the calls left report no addition, and report a
      drop of what the view claims. */
  ghost predicate Spared(s: System) {
    forall m, k :: !Held(s, m, k) && !WriteComing(s, m, k) ==>
      !AddComing(s, m, k) && (InView(s.view, m, k) ==> DropComing(s, m, k))
  }

  /** Introductions are one-to-one, a call starts only apart from the calls under way, and a
      client dies only when the other calls make up for it. */
  ghost predicate Tame(s: System, step: Step)
    requires Enabled(s, step)
  {
    && MeetsOneToOne(s, step)
    && match step
       case Begin(t, op, key, value) =>
         forall c <- s.threads.Keys :: c != t ==> Apart(Begun(s, t, op, key, value), s.threads[c])
       case Crash(client) => Spared(Crashed(s, client))
       case _ => true
  }

  // ---- The invariant --------------------------------------------------------------

  ghost predicate CallsApart(s: System) {
    forall c <- s.threads.Keys, d <- s.threads.Keys :: c != d ==> Apart(s.threads[c], s.threads[d])
  }

  ghost predicate Inv(s: System) {
    Base(s) && CallsApart(s) && Spared(s)
  }

  lemma {:induction false} QuietKeepsSpared(s: System, s': System)
    requires Spared(s) && Quiet(s, s')
    ensures Spared(s')
  {
    forall m, k | !Held(s', m, k) && !WriteComing(s', m, k)
      ensures !AddComing(s', m, k) && (InView(s'.view, m, k) ==> DropComing(s', m, k))
    {
      assert !Held(s, m, k);
      assert WriteComing(s, m, k) == WriteComing(s', m, k);
      assert AddComing(s, m, k) == AddComing(s', m, k);
      assert DropComing(s, m, k) == DropComing(s', m, k);
    }
  }

  /** What a step of a call does to its ends at a pair. */
  ghost predicate EndsMove(s: System, s': System, t: Thread, m: string, k: string)
    requires t in s.threads && t in s'.threads
  {
    var p, p' := s.threads[t], s'.threads[t];
    && (FinalOf(p', m, k) == Added ==> FinalOf(p, m, k) == Added)
    && (NetOf(p', m, k) == Dropped ==> NetOf(p, m, k) == Dropped)
    && (!Held(s', m, k) && NetOf(p', m, k) != Added ==>
          && (Held(s, m, k) ==> NetOf(p, m, k) == Dropped && FinalOf(p', m, k) == Dropped)
          && (!Held(s, m, k) ==> NetOf(p, m, k) != Added)
          && (!Held(s, m, k) && InView(s'.view, m, k) && FinalOf(p', m, k) != Dropped ==>
                FinalOf(p, m, k) == Added || (InView(s.view, m, k) && FinalOf(p, m, k) != Dropped)))
  }

  lemma {:induction false} PerformedEnds(o: Outlook, o': Outlook, inStore: Last, inView: Last, m: string, k: string)
    requires Performed(o, o', inStore, inView, m, k)
    ensures Then(o.pending, ViewNet(o.rest, m, k)) == Then(o'.pending, ViewNet(o'.rest, m, k))
    ensures StoreNet(o'.rest, m, k) == Dropped ==> StoreNet(o.rest, m, k) == Dropped
    ensures StoreNet(o.rest, m, k) == Added && StoreNet(o'.rest, m, k) != Added ==> inStore == Added
    ensures inStore == Dropped && StoreNet(o'.rest, m, k) != Added ==>
              StoreNet(o.rest, m, k) == Dropped && Then(o'.pending, ViewNet(o'.rest, m, k)) == Dropped
  {
    NetsAgree(o'.rest, m, k);
  }

  lemma {:induction false} MoveEnds(s: System, s': System, t: Thread, m: string, k: string)
    requires t in s.threads && t in s'.threads && MovesAt(s, s', t, m, k)
    ensures EndsMove(s, s', t, m, k)
  {
    var o, o' := OutlookOf(s.threads[t], m, k), OutlookOf(s'.threads[t], m, k);
    if inStore, inView :|
      && Performed(o, o', inStore, inView, m, k)
      && (Held(s', m, k) <==> After(inStore, Held(s, m, k)))
      && (InView(s'.view, m, k) <==> InView(s.view, m, k))
    {
      PerformedEnds(o, o', inStore, inView, m, k);
    } else {
      var touch :| Reported(o, o', touch)
        && (Held(s', m, k) <==> Held(s, m, k))
        && (InView(s'.view, m, k) <==> After(touch, InView(s.view, m, k)));
    }
  }

  lemma {:induction false} MoveKeepsApart(s: System, s': System, t: Thread)
    requires CallsApart(s) && CallMoves(s, s', t)
    ensures CallsApart(s')
  {
    forall c <- s.threads.Keys, d <- s.threads.Keys | c != d ensures Apart(s'.threads[c], s'.threads[d]) {
      assert Apart(s.threads[c], s.threads[d]);
      forall m, k
        ensures !(FinalOf(s'.threads[c], m, k) == Added && NetOf(s'.threads[d], m, k) == Dropped)
        ensures !(NetOf(s'.threads[c], m, k) == Dropped && FinalOf(s'.threads[d], m, k) == Added)
      {
        assert MovesAt(s, s', t, m, k);
        MoveEnds(s, s', t, m, k);
      }
    }
  }

  /** The other calls end up the same as before. */
  lemma {:induction false} OthersEnds(s: System, s': System, t: Thread, m: string, k: string)
    requires LocalMove(s, s', t)
    ensures WriteComing(s, m, k) ==> WriteComing(s', m, k) || NetOf(s.threads[t], m, k) == Added
    ensures AddComing(s', m, k) ==>
              FinalOf(s'.threads[t], m, k) == Added
              || exists c <- s.threads.Keys :: c != t && FinalOf(s.threads[c], m, k) == Added
    ensures DropComing(s, m, k) ==> DropComing(s', m, k) || FinalOf(s.threads[t], m, k) == Dropped
    ensures NetOf(s'.threads[t], m, k) == Added ==> WriteComing(s', m, k)
    ensures FinalOf(s'.threads[t], m, k) == Dropped ==> DropComing(s', m, k)
    ensures (exists c <- s.threads.Keys :: FinalOf(s.threads[c], m, k) == Added) ==> AddComing(s, m, k)
  {
    if c :| c in s.threads && NetOf(s.threads[c], m, k) == Added && c != t {
      assert NetOf(s'.threads[c], m, k) == Added;
    }
    if c :| c in s.threads && FinalOf(s.threads[c], m, k) == Dropped && c != t {
      assert FinalOf(s'.threads[c], m, k) == Dropped;
    }
  }

  lemma {:induction false} MoveKeepsSparedAt(s: System, s': System, t: Thread, m: string, k: string)
    requires CallsApart(s) && Spared(s) && LocalMove(s, s', t) && MovesAt(s, s', t, m, k)
    requires !Held(s', m, k) && !WriteComing(s', m, k)
    ensures !AddComing(s', m, k) && (InView(s'.view, m, k) ==> DropComing(s', m, k))
  {
    MoveEnds(s, s', t, m, k);
    OthersEnds(s, s', t, m, k);
    if Held(s, m, k) {
      forall c <- s.threads.Keys | c != t ensures FinalOf(s.threads[c], m, k) != Added {
        assert Apart(s.threads[c], s.threads[t]);
      }
    } else {
      assert !WriteComing(s, m, k);
    }
  }

  lemma {:induction false} MoveKeepsInv(s: System, step: Step)
    requires Inv(s) && Enabled(s, step) && CallStep(step) && !step.Begin?
    ensures Inv(Next(s, step))
  {
    var s', t := Next(s, step), step.thread;
    CallStepMoves(s, step);
    MoveKeepsApart(s, s', t);
    forall m, k | !Held(s', m, k) && !WriteComing(s', m, k)
      ensures !AddComing(s', m, k) && (InView(s'.view, m, k) ==> DropComing(s', m, k))
    {
      MoveKeepsSparedAt(s, s', t, m, k);
    }
  }

  lemma {:induction false} BegunEnds(s: System, t: Thread, p: Phase, m: string, k: string)
    requires t in s.threads && s.threads[t].Idle? && Pending(p) == []
    ensures FinalOf(s.threads[t], m, k) == Untouched && NetOf(s.threads[t], m, k) == Untouched
    ensures FinalOf(p, m, k) == Added ==> NetOf(p, m, k) == Added
  {
    assert Rest(Idle) == [] && Pending(Idle) == [];
    NetsAgree(Rest(p), m, k);
  }

  lemma {:induction false} BeginKeepsSpared(s: System, t: Thread, p: Phase)
    requires Spared(s) && t in s.threads && s.threads[t].Idle? && Pending(p) == []
    ensures Spared(WithPhase(s, t, p))
  {
    var s' := WithPhase(s, t, p);
    forall m, k | !Held(s', m, k) && !WriteComing(s', m, k)
      ensures !AddComing(s', m, k) && (InView(s'.view, m, k) ==> DropComing(s', m, k))
    {
      BegunEnds(s, t, p, m, k);
      assert Held(s, m, k) == Held(s', m, k);
      forall c <- s.threads.Keys
        ensures c != t ==> s'.threads[c] == s.threads[c]
        ensures NetOf(s.threads[c], m, k) != Added
      {
        assert NetOf(s'.threads[c], m, k) != Added;
      }
      assert !WriteComing(s, m, k);
      if c :| c in s.threads && FinalOf(s.threads[c], m, k) == Dropped {
        assert FinalOf(s'.threads[c], m, k) == Dropped;
      }
    }
  }

  lemma {:induction false} BeginKeepsInv(s: System, step: Step)
    requires Inv(s) && Enabled(s, step) && Tame(s, step) && step.Begin?
    ensures Inv(Next(s, step))
  {
    var t, p := step.thread, Begun(s, step.thread, step.op, step.key, step.value);
    BeginKeepsBase(s, step);
    BeginKeepsSpared(s, t, p);
    forall c <- s.threads.Keys | c != t ensures Apart(s.threads[c], p) {
      assert Apart(p, s.threads[c]);
    }
  }

  lemma {:induction false} IdleIsApart(p: Phase)
    ensures Apart(Idle, p) && Apart(p, Idle)
  {
    assert Pending(Idle) == [] && Rest(Idle) == [];
  }

  lemma {:induction false} CrashKeepsInv(s: System, client: string)
    requires Inv(s) && client in s.rules && Spared(Crashed(s, client))
    ensures Inv(Crashed(s, client))
  {
    var s' := Crashed(s, client);
    CrashKeepsBase(s, client);
    forall c <- s.threads.Keys, d <- s.threads.Keys | c != d ensures Apart(s'.threads[c], s'.threads[d]) {
      assert Apart(s.threads[c], s.threads[d]);
      IdleIsApart(s'.threads[c]);
      IdleIsApart(s'.threads[d]);
    }
  }

  lemma {:induction false} StepKeepsInv(s: System, step: Step)
    requires Inv(s) && Enabled(s, step) && Tame(s, step)
    ensures Inv(Next(s, step))
  {
    if step.Begin? {
      BeginKeepsInv(s, step);
    } else if CallStep(step) {
      MoveKeepsInv(s, step);
    } else if step.Crash? {
      CrashKeepsInv(s, step.client);
    } else {
      OtherStepIsQuiet(s, step);
      QuietKeepsSpared(s, Next(s, step));
    }
  }

  // ---- Whole runs ----------------------------------------------------------------------

  ghost predicate IsTamePath(run: seq<System>, steps: seq<Step>) {
    IsPath(run, steps)
    && forall i :: 0 <= i < |steps| ==> StepTo(run[i], steps[i], run[i + 1]) && Tame(run[i], steps[i])
  }

  lemma {:induction false} TamePathKeepsInv(run: seq<System>, steps: seq<Step>)
    requires IsTamePath(run, steps) && Inv(run[0])
    ensures Inv(run[|steps|])
  {
    var n := |steps|;
    if n > 0 {
      TamePathKeepsInv(run[..n], steps[..n - 1]);
      assert StepTo(run[n - 1], steps[n - 1], run[n]);
      StepKeepsInv(run[n - 1], steps[n - 1]);
    }
  }

  lemma {:induction false} InitialIsInv(s: System)
    requires Initial(s)
    ensures Inv(s)
  {
    assert Pending(Idle) == [] && Rest(Idle) == [] && Body(Idle) == [];
  }

  predicate AllIdle(s: System) {
    forall t <- s.threads.Keys :: s.threads[t].Idle?
  }

  /** Every key of the view is stored by its manager. */
  ghost predicate ViewHeld(s: System) {
    forall m, k :: InView(s.view, m, k) ==> Held(s, m, k)
  }

  lemma {:induction false} IdleViewIsHeld(s: System)
    requires Spared(s) && AllIdle(s)
    ensures ViewHeld(s)
  {
    assert Pending(Idle) == [] && Rest(Idle) == [];
    forall m, k | InView(s.view, m, k) ensures Held(s, m, k) {
      assert !WriteComing(s, m, k) && !DropComing(s, m, k);
    }
  }

  /** The main result: in every tame run, whenever no call is under way, every key of the
      view is stored by its manager. */
  lemma {:induction false} QuiescentViewIsSound(run: seq<System>, steps: seq<Step>)
    requires IsTamePath(run, steps) && Initial(run[0]) && AllIdle(run[|steps|])
    ensures ViewHeld(run[|steps|])
  {
    InitialIsInv(run[0]);
    TamePathKeepsInv(run, steps);
    IdleViewIsHeld(run[|steps|]);
  }
}

/** The conditions on starts and deaths are exact: a start that breaks them has a continuation,
    through the ends of all calls and reports, after which the view claims a key nobody stores. */
module Clashes {
  import opened Messages
  import opened Interpreter
  import opened Resolution
  import opened Cluster
  import opened LoneCall
  import opened ConcurrentSteps
  import opened ConcurrentView
  import opened GoingOn

  /** However the calls under way go on to their ends, the view is sound then. */
  ghost predicate EndsSound(s: System) {
    forall steps, w :: AllGoOn(steps) && Leads(s, steps, w) && AllIdle(w) ==> ViewHeld(w)
  }

  ghost predicate AllAble(s: System) {
    forall t <- s.threads.Keys :: Able(s, t)
  }

  lemma {:induction false} InvEndsSound(s: System)
    requires Inv(s)
    ensures EndsSound(s)
  {
    forall steps, w | AllGoOn(steps) && Leads(s, steps, w) && AllIdle(w) ensures ViewHeld(w) {
      var run :| IsPath(run, steps) && run[0] == s && run[|steps|] == w;
      TamePathKeepsInv(run, steps);
      IdleViewIsHeld(w);
    }
  }

  lemma {:induction false} IdleAfterAll(s: System, w: System)
    requires OnlyFinished(s, w, s.threads.Keys)
    ensures AllIdle(w)
  {
  }

  lemma {:induction false} IdleEndsUntouched(p: Phase, m: string, k: string)
    ensures p.Idle? ==> FinalOf(p, m, k) == Untouched && NetOf(p, m, k) == Untouched
  {
    assert Pending(Idle) == [] && Rest(Idle) == [];
  }

  /** `FinishesBody` at one pair. */
  lemma {:induction false} FinishesBodyAt(s: System, t: Thread, m: string, k: string)
    returns (steps: seq<Step>, w: System)
    requires Able(s, t) && !s.threads[t].Idle?
    requires OneToOne(s.peers) && Coherent(s.peers, Body(s.threads[t]))
    ensures AllGoOn(steps) && Leads(s, steps, w) && OnlyMoved(s, w, t) && BodyDone(w.threads[t])
    ensures LastOf(Pending(w.threads[t]), m, k) == FinalOf(s.threads[t], m, k)
    ensures Held(w, m, k) <==> After(NetOf(s.threads[t], m, k), Held(s, m, k))
  {
    steps, w := FinishesBody(s, t);
  }

  lemma {:induction false} AppendGoesOn(a: seq<Step>, b: seq<Step>)
    requires AllGoOn(a) && AllGoOn(b)
    ensures AllGoOn(a + b)
  {
  }

  // ---- A call's start ---------------------------------------------------------------

  /** Two calls with nothing left but their reports: the first is reported before the second. */
  lemma {:induction false} ReportsInTurn(s: System, d: Thread, c: Thread, m: string, k: string)
    returns (steps: seq<Step>, w: System)
    requires c in s.threads && d in s.threads && c != d
    requires BodyDone(s.threads[c]) && BodyDone(s.threads[d])
    requires forall t <- s.threads.Keys :: t != c && t != d ==> s.threads[t].Idle?
    requires LastOf(Pending(s.threads[c]), m, k) == Added
    ensures AllGoOn(steps) && Leads(s, steps, w) && AllIdle(w)
    ensures InView(w.view, m, k) && (Held(w, m, k) <==> Held(s, m, k))
  {
    var first, mid := FinishesReport(s, d);
    var second, end := FinishesReport(mid, c);
    LeadsOn(s, first, mid, second, end);
    steps, w := first + second, end;
  }

  /** The call can go on from a state where its rule fits the names. */
  ghost predicate Fit(s: System, t: Thread) {
    Able(s, t) && OneToOne(s.peers) && Coherent(s.peers, Body(s.threads[t]))
  }

  /** One call performs all its actions; another is where it was, and still fit. */
  lemma {:induction false} BodyBesides(s: System, c: Thread, d: Thread, m: string, k: string)
    returns (steps: seq<Step>, w: System)
    requires Fit(s, c) && Fit(s, d) && c != d && !s.threads[c].Idle?
    ensures AllGoOn(steps) && Leads(s, steps, w) && OnlyMoved(s, w, c) && BodyDone(w.threads[c])
    ensures LastOf(Pending(w.threads[c]), m, k) == FinalOf(s.threads[c], m, k)
    ensures Held(w, m, k) <==> After(NetOf(s.threads[c], m, k), Held(s, m, k))
    ensures Fit(w, d) && w.threads[d] == s.threads[d]
  {
    steps, w := FinishesBodyAt(s, c, m, k);
    StaysAble(s, w, c, d);
  }

  /** One call performs all its actions, then the other does. */
  lemma {:induction false} BodiesInTurn(s: System, c: Thread, d: Thread, m: string, k: string)
    returns (steps: seq<Step>, w: System)
    requires Fit(s, c) && Fit(s, d) && c != d && !s.threads[c].Idle? && !s.threads[d].Idle?
    requires FinalOf(s.threads[c], m, k) == Added && NetOf(s.threads[d], m, k) == Dropped
    ensures AllGoOn(steps) && Leads(s, steps, w) && w.threads.Keys == s.threads.Keys
    ensures BodyDone(w.threads[c]) && BodyDone(w.threads[d])
    ensures forall t <- w.threads.Keys :: t != c && t != d ==> w.threads[t] == s.threads[t]
    ensures LastOf(Pending(w.threads[c]), m, k) == Added && !Held(w, m, k)
  {
    var first, mid := BodyBesides(s, c, d, m, k);
    var second, end := FinishesBodyAt(mid, d, m, k);
    LeadsOn(s, first, mid, second, end);
    AppendGoesOn(first, second);
    steps, w := first + second, end;
  }

  /** All calls but two finish; the two are where they were, and still fit. */
  lemma {:induction false} OthersFinish(s: System, c: Thread, d: Thread)
    returns (steps: seq<Step>, w: System)
    requires AllAble(s) && RulesCoherent(s) && c in s.threads && d in s.threads
    ensures AllGoOn(steps) && Leads(s, steps, w) && w.threads.Keys == s.threads.Keys
    ensures Fit(w, c) && Fit(w, d) && w.threads[c] == s.threads[c] && w.threads[d] == s.threads[d]
    ensures forall t <- w.threads.Keys :: t != c && t != d ==> w.threads[t].Idle?
  {
    steps, w := FinishAll(s, s.threads.Keys - {c, d});
  }

  /** Two calls of which one ends up reporting a pair as added and the other removing it: the
      others finish, the one performs its actions, the other removes and reports, the one
      reports. No call is under way then, and the view claims what is not stored. */
  lemma {:induction false} ClashEndsUnsound(s: System, c: Thread, d: Thread, m: string, k: string)
    returns (steps: seq<Step>, w: System)
    requires AllAble(s) && RulesCoherent(s) && c in s.threads && d in s.threads && c != d
    requires FinalOf(s.threads[c], m, k) == Added && NetOf(s.threads[d], m, k) == Dropped
    ensures AllGoOn(steps) && Leads(s, steps, w) && AllIdle(w)
    ensures InView(w.view, m, k) && !Held(w, m, k)
  {
    IdleEndsUntouched(s.threads[c], m, k);
    IdleEndsUntouched(s.threads[d], m, k);
    var others, left := OthersFinish(s, c, d);
    var bodies, done := BodiesInTurn(left, c, d, m, k);
    LeadsOn(s, others, left, bodies, done);
    AppendGoesOn(others, bodies);
    var reports, end := ReportsInTurn(done, d, c, m, k);
    LeadsOn(s, others + bodies, done, reports, end);
    AppendGoesOn(others + bodies, reports);
    steps, w := others + bodies + reports, end;
  }

  /** Starting a call is safe, over all ways it and the calls under way can go on to their
      ends, exactly when it is apart from each of them. */
  lemma {:induction false} StartingIsSafeIff(s: System, t: Thread, op: OperationType, key: string, value: string)
    requires Inv(s) && Enabled(s, Begin(t, op, key, value)) && AllAble(Next(s, Begin(t, op, key, value)))
    ensures EndsSound(Next(s, Begin(t, op, key, value))) <==> Tame(s, Begin(t, op, key, value))
  {
    var begin, p := Begin(t, op, key, value), Begun(s, t, op, key, value);
    var s' := Next(s, begin);
    if Tame(s, begin) {
      StepKeepsInv(s, begin);
      InvEndsSound(s');
    } else {
      BeginKeepsBase(s, begin);
      var c :| c in s.threads && c != t && !Apart(p, s.threads[c]);
      assert s'.threads[t] == p && s'.threads[c] == s.threads[c];
      var m, k :| (FinalOf(p, m, k) == Added && NetOf(s.threads[c], m, k) == Dropped)
                  || (NetOf(p, m, k) == Dropped && FinalOf(s.threads[c], m, k) == Added);
      var steps, w;
      if FinalOf(p, m, k) == Added && NetOf(s.threads[c], m, k) == Dropped {
        steps, w := ClashEndsUnsound(s', t, c, m, k);
      } else {
        steps, w := ClashEndsUnsound(s', c, t, m, k);
      }
      assert !ViewHeld(w);
    }
  }

  // ---- A client's death -----------------------------------------------------------

  lemma {:induction false} NothingStoredLeft(s: System, w: System, calls: set<Thread>, m: string, k: string)
    requires calls <= s.threads.Keys && Leaves(s, w, calls)
    requires !Held(s, m, k) && forall t <- s.threads.Keys :: NetOf(s.threads[t], m, k) != Added
    ensures !Held(w, m, k)
  {
  }

  /** The others finish, then the call that reports the addition. */
  lemma {:induction false} AddedLastEndsUnsound(s: System, c: Thread, m: string, k: string)
    returns (steps: seq<Step>, w: System)
    requires AllAble(s) && RulesCoherent(s) && c in s.threads && FinalOf(s.threads[c], m, k) == Added
    requires !Held(s, m, k) && forall t <- s.threads.Keys :: NetOf(s.threads[t], m, k) != Added
    ensures AllGoOn(steps) && Leads(s, steps, w) && AllIdle(w)
    ensures InView(w.view, m, k) && !Held(w, m, k)
  {
    IdleEndsUntouched(s.threads[c], m, k);
    var others, left := FinishAll(s, s.threads.Keys - {c});
    NothingStoredLeft(s, left, s.threads.Keys - {c}, m, k);
    var last, end := FinishOneAt(left, c, m, k);
    LeadsOn(s, others, left, last, end);
    AppendGoesOn(others, last);
    steps, w := others + last, end;
  }

  /** `Finishes` at one pair. */
  lemma {:induction false} FinishOneAt(s: System, t: Thread, m: string, k: string)
    returns (steps: seq<Step>, w: System)
    requires AllFit(s) && t in s.threads && !s.threads[t].Idle?
    ensures AllGoOn(steps) && Leads(s, steps, w) && OnlyMoved(s, w, t) && w.threads[t].Idle?
    ensures Held(w, m, k) <==> After(NetOf(s.threads[t], m, k), Held(s, m, k))
    ensures InView(w.view, m, k) <==> After(FinalOf(s.threads[t], m, k), InView(s.view, m, k))
  {
    steps, w := Finishes(s, t);
  }

  /** What is not stored nor will be, but is claimed for good, stays claimed to the end. */
  lemma {:induction false} UnsparedEndsUnsound(s: System, m: string, k: string)
    returns (steps: seq<Step>, w: System)
    requires AllAble(s) && RulesCoherent(s)
    requires !Held(s, m, k) && !WriteComing(s, m, k)
    requires AddComing(s, m, k) || (InView(s.view, m, k) && !DropComing(s, m, k))
    ensures AllGoOn(steps) && Leads(s, steps, w) && AllIdle(w)
    ensures InView(w.view, m, k) && !Held(w, m, k)
  {
    assert forall t <- s.threads.Keys :: NetOf(s.threads[t], m, k) != Added;
    if AddComing(s, m, k) {
      var c :| c in s.threads && FinalOf(s.threads[c], m, k) == Added;
      steps, w := AddedLastEndsUnsound(s, c, m, k);
    } else {
      assert forall t <- s.threads.Keys :: FinalOf(s.threads[t], m, k) != Dropped;
      steps, w := FinishAll(s, s.threads.Keys);
      IdleAfterAll(s, w);
    }
  }

  lemma {:induction false} UnsparedIsUnsafe(s: System)
    requires AllAble(s) && RulesCoherent(s) && !Spared(s)
    ensures !EndsSound(s)
  {
    var m, k :| !Held(s, m, k) && !WriteComing(s, m, k)
      && (AddComing(s, m, k) || (InView(s.view, m, k) && !DropComing(s, m, k)));
    var steps, w := UnsparedEndsUnsound(s, m, k);
    assert !ViewHeld(w);
  }

  /** A client's death is safe, over all ways the other calls can go on to their ends, exactly
      when these make up for it. */
  lemma {:induction false} CrashIsSafeIff(s: System, client: string)
    requires Inv(s) && client in s.rules && AllAble(Crashed(s, client))
    ensures EndsSound(Crashed(s, client)) <==> Tame(s, Crash(client))
  {
    CrashKeepsBase(s, client);
    if Spared(Crashed(s, client)) {
      CrashKeepsInv(s, client);
      InvEndsSound(Crashed(s, client));
    } else {
      UnsparedIsUnsafe(Crashed(s, client));
    }
  }
}

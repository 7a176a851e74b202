/** How calls under way can go on: as far as one action, to the end of their actions, to the
    end of their report, one after another. */
module GoingOn {
  import opened Messages
  import opened Interpreter
  import opened Resolution
  import opened Cluster
  import opened LoneCall
  import opened ConcurrentSteps
  import opened ConcurrentView

  /** All managers serve, and what the call has still to do will pass its assertions. */
  ghost predicate Able(s: System, t: Thread) {
    && t in s.threads && s.serving == s.stores.Keys
    && var p := s.threads[t];
       p.Running? || p.Pulled? ==>
         && p.pc <= |p.call.body| && Performable(s, t, p.call)
         && (p.Pulled? ==> p.pc < |p.call.body| && p.call.body[p.pc].CopyFromAction?)
  }

  /** The steps in which calls under way go on until they have reported. */
  predicate GoesOn(step: Step) {
    step.Act? || step.Store? || step.Report? || step.Apply? || step.Return?
  }

  predicate AllGoOn(steps: seq<Step>) {
    forall i :: 0 <= i < |steps| ==> GoesOn(steps[i])
  }

  /** Only t's call moved, and stores and view with it. */
  ghost predicate OnlyMoved(s: System, w: System, t: Thread) {
    && t in s.threads && t in w.threads
    && w == s.(stores := w.stores, view := w.view, threads := s.threads[t := w.threads[t]])
    && w.stores.Keys == s.stores.Keys
  }

  predicate UnderWay(p: Phase) {
    p.Running? || p.Pulled?
  }

  // ---- One action --------------------------------------------------------------------

  /** The call performs its next action. */
  lemma {:induction false} Performs(s: System, t: Thread) returns (steps: seq<Step>, w: System)
    requires Able(s, t) && UnderWay(s.threads[t]) && s.threads[t].pc < |s.threads[t].call.body|
    requires OneToOne(s.peers) && Coherent(s.peers, Body(s.threads[t]))
    ensures AllGoOn(steps) && Leads(s, steps, w) && OnlyMoved(s, w, t) && w.view == s.view
    ensures var p := s.threads[t];
            var a := p.call.body[p.pc];
            && w.threads[t] == Running(p.call, p.pc + 1, p.log + Logged(p.call, a))
            && forall m, k :: Held(w, m, k) <==> After(StoreTouch(a, m, k), Held(s, m, k))
  {
    CanGoOn(s, t);
    if s.threads[t].Running? {
      steps, w := PerformsRunning(s, t);
    } else {
      steps, w := PerformsPulled(s, t);
    }
  }

  lemma {:induction false} CanGoOn(s: System, t: Thread)
    requires Able(s, t) && UnderWay(s.threads[t]) && s.threads[t].pc < |s.threads[t].call.body|
    requires Coherent(s.peers, Body(s.threads[t]))
    ensures var p := s.threads[t];
            var a := p.call.body[p.pc];
            && Ready(s, a) && Passes(p.call, a) && Coherent1(s.peers, a)
            && Present1(Labelled(a, ByUri), s.stores.Keys)
  {
    var p := s.threads[t];
    assert Present1(Labels(p.call.body, ByUri)[p.pc], s.stores.Keys);
  }

  lemma {:induction false} PerformsRunning(s: System, t: Thread) returns (steps: seq<Step>, w: System)
    requires t in s.threads && s.threads[t].Running? && s.threads[t].pc < |s.threads[t].call.body|
    requires var p := s.threads[t];
             var a := p.call.body[p.pc];
             && Ready(s, a) && Passes(p.call, a) && Coherent1(s.peers, a)
             && Present1(Labelled(a, ByUri), s.stores.Keys)
    requires OneToOne(s.peers) && s.serving == s.stores.Keys
    ensures AllGoOn(steps) && Leads(s, steps, w) && OnlyMoved(s, w, t) && w.view == s.view
    ensures var p := s.threads[t];
            var a := p.call.body[p.pc];
            && w.threads[t] == Running(p.call, p.pc + 1, p.log + Logged(p.call, a))
            && forall m, k :: Held(w, m, k) <==> After(StoreTouch(a, m, k), Held(s, m, k))
  {
    var p := s.threads[t];
    var a := p.call.body[p.pc];
    assert At(s, t, s.stores, s.view, p).threads == s.threads;
    Acts(s, t, s.stores, s.view, p);
    steps := ActionSteps(t, a);
    w := At(s, t, Effect(s.stores, Labelled(a, ByUri), p.call.value), s.view,
            Running(p.call, p.pc + 1, p.log + Logged(p.call, a)));
    HeldAfterAction(s, w, a, p.call.value);
  }

  lemma {:induction false} PerformsPulled(s: System, t: Thread) returns (steps: seq<Step>, w: System)
    requires t in s.threads && s.threads[t].Pulled? && s.threads[t].pc < |s.threads[t].call.body|
    requires var p := s.threads[t];
             var a := p.call.body[p.pc];
             a.CopyFromAction? && Ready(s, a) && Coherent1(s.peers, a) && Present1(Labelled(a, ByUri), s.stores.Keys)
    requires OneToOne(s.peers)
    ensures AllGoOn(steps) && Leads(s, steps, w) && OnlyMoved(s, w, t) && w.view == s.view
    ensures var p := s.threads[t];
            var a := p.call.body[p.pc];
            && w.threads[t] == Running(p.call, p.pc + 1, p.log + [a])
            && forall m, k :: Held(w, m, k) <==> After(StoreTouch(a, m, k), Held(s, m, k))
  {
    var p := s.threads[t];
    var a := p.call.body[p.pc];
    var put := PutAction(a.key, a.srcMgr);
    assert At(s, t, s.stores, s.view, p).threads == s.threads;
    StoresOnce(s, t, s.stores, s.view, p);
    LeadsOne(At(s, t, s.stores, s.view, p), Store(t));
    steps := [Store(t)];
    w := At(s, t, Write(s.stores, a.srcMgr.uri, a.key, p.value), s.view, Running(p.call, p.pc + 1, p.log + [a]));
    HeldAfterAction(s, w, put, p.value);
    assert forall m, k :: StoreTouch(put, m, k) == StoreTouch(a, m, k);
  }

  lemma {:induction false} HeldAfterAction(s: System, w: System, a: Action<Manager>, value: string)
    requires OneToOne(s.peers) && Coherent1(s.peers, a) && Present1(Labelled(a, ByUri), s.stores.Keys)
    requires w.peers == s.peers && w.stores == Effect(s.stores, Labelled(a, ByUri), value)
    ensures forall m, k :: Held(w, m, k) <==> After(StoreTouch(a, m, k), Held(s, m, k))
  {
    forall m, k ensures Held(w, m, k) <==> After(StoreTouch(a, m, k), Held(s, m, k)) {
      HeldAfterEffect(s, a, value, m, k);
      assert Held(w, m, k) == Held(s.(stores := w.stores), m, k);
    }
  }

  lemma {:induction false} StaysAble(s: System, w: System, t: Thread, c: Thread)
    requires Able(s, t) && Able(s, c) && OnlyMoved(s, w, t)
    requires c == t && UnderWay(w.threads[t]) ==>
      && UnderWay(s.threads[t]) && w.threads[t].Running? && w.threads[t].call == s.threads[t].call
      && w.threads[t].pc <= |w.threads[t].call.body|
    ensures Able(w, c)
  {
  }

  lemma {:induction false} MovedTwice(s: System, mid: System, w: System, t: Thread)
    requires OnlyMoved(s, mid, t) && OnlyMoved(mid, w, t)
    ensures OnlyMoved(s, w, t)
  {
    assert s.threads[t := mid.threads[t]][t := w.threads[t]] == s.threads[t := w.threads[t]];
  }

  // ---- All actions -------------------------------------------------------------------

  /** The call has nothing left but its report. */
  predicate BodyDone(p: Phase) {
    p.Reporting? || (p.Running? && p.pc == |p.call.body|)
  }

  /** The report of the call now does what it was to end up doing, and the stores show what it
      had still to do. */
  ghost predicate BodyEnds(s: System, w: System, t: Thread)
    requires t in s.threads && t in w.threads
  {
    forall m, k ::
      && LastOf(Pending(w.threads[t]), m, k) == FinalOf(s.threads[t], m, k)
      && (Held(w, m, k) <==> After(NetOf(s.threads[t], m, k), Held(s, m, k)))
  }

  lemma {:induction false} DoneBodyEnds(s: System, t: Thread)
    requires t in s.threads && BodyDone(s.threads[t])
    ensures BodyEnds(s, s, t)
  {
    assert Rest(s.threads[t]) == [];
  }

  lemma {:induction false} BodyEndsLater(s: System, mid: System, w: System, t: Thread)
    requires t in s.threads && t in mid.threads && t in w.threads && BodyEnds(mid, w, t)
    requires var p := s.threads[t];
             && UnderWay(p) && p.pc < |p.call.body| && p.call.op != REMOVE
             && var a := p.call.body[p.pc];
                && Passes(p.call, a) && mid.threads[t] == Running(p.call, p.pc + 1, p.log + Logged(p.call, a))
                && forall m, k :: Held(mid, m, k) <==> After(StoreTouch(a, m, k), Held(s, m, k))
    ensures BodyEnds(s, w, t)
  {
    forall m, k
      ensures LastOf(Pending(w.threads[t]), m, k) == FinalOf(s.threads[t], m, k)
      ensures Held(w, m, k) <==> After(NetOf(s.threads[t], m, k), Held(s, m, k))
    {
      EndsAdvance(s.threads[t], m, k);
    }
  }

  /** The call performs all its actions. */
  lemma {:induction false} FinishesBody(s: System, t: Thread) returns (steps: seq<Step>, w: System)
    requires Able(s, t) && !s.threads[t].Idle?
    requires OneToOne(s.peers) && Coherent(s.peers, Body(s.threads[t]))
    ensures AllGoOn(steps) && Leads(s, steps, w) && OnlyMoved(s, w, t) && w.view == s.view
    ensures BodyDone(w.threads[t]) && Able(w, t) && BodyEnds(s, w, t)
    decreases if UnderWay(s.threads[t]) then |s.threads[t].call.body| - s.threads[t].pc else 0
  {
    var p := s.threads[t];
    if BodyDone(p) {
      LeadsNowhere(s);
      DoneBodyEnds(s, t);
      assert s.threads[t := p] == s.threads;
      return [], s;
    }
    var mid, more;
    steps, mid := Performs(s, t);
    StaysAble(s, mid, t, t);
    more, w := FinishesBody(mid, t);
    LeadsOn(s, steps, mid, more, w);
    MovedTwice(s, mid, w, t);
    BodyEndsLater(s, mid, w, t);
    steps := steps + more;
  }

  /** Over one action the end of a call is the action's touch and the end of what follows. */
  lemma {:induction false} EndsAdvance(p: Phase, m: string, k: string)
    requires UnderWay(p) && p.pc < |p.call.body| && p.call.op != REMOVE && Passes(p.call, p.call.body[p.pc])
    ensures var a := p.call.body[p.pc];
            var p' := Running(p.call, p.pc + 1, p.log + Logged(p.call, a));
            && FinalOf(p, m, k) == FinalOf(p', m, k)
            && NetOf(p, m, k) == Then(StoreTouch(a, m, k), NetOf(p', m, k))
            && LastOf(Pending(p'), m, k) == Then(LastOf(Pending(p), m, k), ViewTouch(a, m, k))
  {
    var a := p.call.body[p.pc];
    var p' := Running(p.call, p.pc + 1, p.log + Logged(p.call, a));
    LastOfLogged(p.log, Logged(p.call, a), a, m, k);
    PhaseAdvances(p, p.log + Logged(p.call, a), m, k);
    FirstOfRest(a, Rest(p'), m, k);
  }

  // ---- The report --------------------------------------------------------------------

  lemma {:induction false} StartsReporting(s: System, t: Thread) returns (steps: seq<Step>)
    requires t in s.threads && BodyDone(s.threads[t])
    ensures AllGoOn(steps)
    ensures Leads(s, steps, At(s, t, s.stores, s.view, Reporting(s.threads[t].call, Pending(s.threads[t]))))
  {
    var p := s.threads[t];
    assert At(s, t, s.stores, s.view, p).threads == s.threads;
    if p.Running? {
      StartsReport(s, t, s.stores, s.view, p.call, p.log);
      steps := [Report(t)];
    } else {
      LeadsNowhere(s);
      steps := [];
    }
  }

  lemma {:induction false} Returns(s: System, t: Thread, stores: Stores, view: View, call: Call)
    requires t in s.threads
    ensures Leads(At(s, t, stores, view, Reporting(call, [])), [Return(t)], At(s, t, stores, view, Idle))
  {
    LeadsOne(At(s, t, stores, view, Reporting(call, [])), Return(t));
    Moves(s, t, stores, view, Reporting(call, []), Idle);
  }

  lemma {:induction false} ReportsAll(s: System, t: Thread, stores: Stores, view: View, call: Call, todo: seq<Change>)
    requires t in s.threads
    ensures Leads(At(s, t, stores, view, Reporting(call, todo)), Repeat(Apply(t), |todo|) + [Return(t)],
                  At(s, t, stores, ApplyAll(view, todo), Idle))
  {
    AppliesReport(s, t, stores, view, call, todo, |todo|);
    assert todo[..|todo|] == todo && todo[|todo|..] == [];
    Returns(s, t, stores, ApplyAll(view, todo), call);
    LeadsOn(At(s, t, stores, view, Reporting(call, todo)), Repeat(Apply(t), |todo|),
            At(s, t, stores, ApplyAll(view, todo), Reporting(call, [])), [Return(t)],
            At(s, t, stores, ApplyAll(view, todo), Idle));
  }

  /** The master makes all changes of the call's report. */
  lemma {:induction false} FinishesReport(s: System, t: Thread) returns (steps: seq<Step>, w: System)
    requires t in s.threads && BodyDone(s.threads[t])
    ensures AllGoOn(steps) && Leads(s, steps, w) && OnlyMoved(s, w, t) && w.stores == s.stores
    ensures w.threads[t].Idle?
    ensures forall m, k :: InView(w.view, m, k) <==> After(LastOf(Pending(s.threads[t]), m, k), InView(s.view, m, k))
  {
    var call, todo := s.threads[t].call, Pending(s.threads[t]);
    var rest := Repeat(Apply(t), |todo|) + [Return(t)];
    steps := StartsReporting(s, t);
    ReportsAll(s, t, s.stores, s.view, call, todo);
    w := At(s, t, s.stores, ApplyAll(s.view, todo), Idle);
    LeadsOn(s, steps, At(s, t, s.stores, s.view, Reporting(call, todo)), rest, w);
    RepeatsApply(t, |todo|);
    steps := steps + rest;
    forall m, k ensures InView(w.view, m, k) <==> After(LastOf(todo, m, k), InView(s.view, m, k)) {
      InViewAfterChanges(s.view, todo, m, k);
    }
  }

  lemma {:induction false} RepeatsApply(t: Thread, n: nat)
    ensures AllGoOn(Repeat(Apply(t), n))
  {
    if n > 0 { RepeatsApply(t, n - 1); }
  }

  // ---- Whole calls -------------------------------------------------------------------

  /** The call goes on to its end. */
  lemma {:induction false} Finishes(s: System, t: Thread) returns (steps: seq<Step>, w: System)
    requires Able(s, t) && !s.threads[t].Idle?
    requires OneToOne(s.peers) && Coherent(s.peers, Body(s.threads[t]))
    ensures AllGoOn(steps) && Leads(s, steps, w) && OnlyMoved(s, w, t) && w.threads[t].Idle?
    ensures forall m, k :: Held(w, m, k) <==> After(NetOf(s.threads[t], m, k), Held(s, m, k))
    ensures forall m, k :: InView(w.view, m, k) <==> After(FinalOf(s.threads[t], m, k), InView(s.view, m, k))
  {
    var mid, more;
    steps, mid := FinishesBody(s, t);
    more, w := FinishesReport(mid, t);
    LeadsOn(s, steps, mid, more, w);
    MovedTwice(s, mid, w, t);
    steps := steps + more;
    forall m, k ensures Held(w, m, k) <==> After(NetOf(s.threads[t], m, k), Held(s, m, k)) {
      assert Held(w, m, k) == Held(mid, m, k);
    }
  }

  /** The calls of this set are over, the others are where they were. */
  ghost predicate OnlyFinished(s: System, w: System, calls: set<Thread>) {
    && calls <= s.threads.Keys && w.threads.Keys == s.threads.Keys
    && w == s.(stores := w.stores, view := w.view, threads := w.threads)
    && w.stores.Keys == s.stores.Keys
    && forall t <- s.threads.Keys :: w.threads[t] == if t in calls then Idle else s.threads[t]
  }

  /** Where none of the calls ends up writing, nothing came to be stored; what none of them ends
      up dropping is still in the view. */
  ghost predicate Leaves(s: System, w: System, calls: set<Thread>)
    requires calls <= s.threads.Keys
  {
    forall m, k ::
      && (!Held(s, m, k) && (forall t <- calls :: NetOf(s.threads[t], m, k) != Added) ==> !Held(w, m, k))
      && (InView(s.view, m, k) && (forall t <- calls :: FinalOf(s.threads[t], m, k) != Dropped) ==>
            InView(w.view, m, k))
  }

  ghost predicate AllFit(s: System) {
    OneToOne(s.peers) && forall t <- s.threads.Keys :: Able(s, t) && Coherent(s.peers, Body(s.threads[t]))
  }

  /** One call, if it is under way at all, goes on to its end. */
  lemma {:induction false} FinishOne(s: System, t: Thread) returns (steps: seq<Step>, w: System)
    requires AllFit(s) && t in s.threads
    ensures AllGoOn(steps) && Leads(s, steps, w) && OnlyFinished(s, w, {t}) && Leaves(s, w, {t})
  {
    if s.threads[t].Idle? {
      LeadsNowhere(s);
      steps, w := [], s;
    } else {
      steps, w := Finishes(s, t);
    }
  }

  lemma {:induction false} FinishedStaysFit(s: System, w: System, calls: set<Thread>)
    requires AllFit(s) && OnlyFinished(s, w, calls)
    ensures AllFit(w)
  {
    assert Body(Idle) == [];
  }

  lemma {:induction false} FinishedMore(s: System, mid: System, w: System, t: Thread, calls: set<Thread>)
    requires t in calls && OnlyFinished(s, mid, {t}) && OnlyFinished(mid, w, calls - {t})
    requires Leaves(s, mid, {t}) && Leaves(mid, w, calls - {t})
    ensures OnlyFinished(s, w, calls) && Leaves(s, w, calls)
  {
    assert forall c <- calls - {t} :: mid.threads[c] == s.threads[c];
    forall m, k | !Held(s, m, k) && forall c <- calls :: NetOf(s.threads[c], m, k) != Added ensures !Held(w, m, k) {
      assert !Held(mid, m, k);
    }
    forall m, k | InView(s.view, m, k) && forall c <- calls :: FinalOf(s.threads[c], m, k) != Dropped
      ensures InView(w.view, m, k)
    {
      assert InView(mid.view, m, k);
    }
  }

  /** All calls of the set go on to their ends. */
  lemma {:induction false} FinishAll(s: System, calls: set<Thread>) returns (steps: seq<Step>, w: System)
    requires AllFit(s) && calls <= s.threads.Keys
    ensures AllGoOn(steps) && Leads(s, steps, w) && OnlyFinished(s, w, calls) && Leaves(s, w, calls) && AllFit(w)
    decreases calls
  {
    if calls == {} {
      LeadsNowhere(s);
      return [], s;
    }
    var t :| t in calls;
    var mid, more;
    steps, mid := FinishOne(s, t);
    FinishedStaysFit(s, mid, {t});
    more, w := FinishAll(mid, calls - {t});
    LeadsOn(s, steps, mid, more, w);
    FinishedMore(s, mid, w, t, calls);
    steps := steps + more;
  }
}

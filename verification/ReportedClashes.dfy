/** The conditions for soundness in the middle of calls are exact too: a start or a death that
    breaks them leads to a state in which reporting all that was done claims what is not stored. */
module ReportedClashes {
  import opened Messages
  import opened Interpreter
  import opened Cluster
  import opened LoneCall
  import opened ConcurrentSteps
  import opened ConcurrentView
  import opened ReportedView
  import opened GoingOn
  import opened Clashes

  /** However far the calls under way go on, reporting what they have done leaves the view sound. */
  ghost predicate SoundThroughout(s: System) {
    forall steps, w, order ::
      AllGoOn(steps) && Leads(s, steps, w) && IsOrder(w, order) && (forall t <- order :: t in w.threads)
      ==> SoundOnReport(w, order)
  }

  lemma {:induction false} InvIsSoundThroughout(s: System)
    requires StrictInv(s)
    ensures SoundThroughout(s)
  {
    forall steps, w, order |
      AllGoOn(steps) && Leads(s, steps, w) && IsOrder(w, order) && (forall t <- order :: t in w.threads)
      ensures SoundOnReport(w, order)
    {
      var run :| IsPath(run, steps) && run[0] == s && run[|steps|] == w;
      StrictPathKeepsInv(run, steps);
      OrderIsOfThreads(w, order);
      SparedIsSoundOnReport(w, order);
    }
  }

  ghost function SomeOrder(threads: set<Thread>): (order: seq<Thread>)
    ensures multiset(order) == multiset(threads)
  {
    if threads == {} then []
    else
      var t :| t in threads;
      assert threads == threads - {t} + {t};
      SomeOrder(threads - {t}) + [t]
  }

  /** Reporting the adding call last leaves the entry. */
  lemma {:induction false} AddedLastIsUnsound(w: System, c: Thread, m: string, k: string)
    requires c in w.threads && LastOf(Pending(w.threads[c]), m, k) == Added && !Held(w, m, k)
    ensures var order := SomeOrder(w.threads.Keys - {c}) + [c];
            IsOrder(w, order) && (forall t <- order :: t in w.threads) && !SoundOnReport(w, order)
  {
    var before := SomeOrder(w.threads.Keys - {c});
    var order := before + [c];
    assert w.threads.Keys == w.threads.Keys - {c} + {c};
    assert order[..|before|] == before;
    OrderIsOfThreads(w, order);
    LastOfAppend(PendingInOrder(w, before), Pending(w.threads[c]), m, k);
    InViewAfterChanges(w.view, PendingInOrder(w, order), m, k);
  }

  /** Without an addition or a drop to report, an entry stays as it is. */
  lemma {:induction false} UntoldStays(w: System, order: seq<Thread>, m: string, k: string)
    requires forall t <- order :: t in w.threads
    requires InView(w.view, m, k) && !Held(w, m, k) && !AddPending(w, m, k) && !DropPending(w, m, k)
    ensures !SoundOnReport(w, order)
  {
    PendingInOrderTold(w, order, m, k);
    InViewAfterChanges(w.view, PendingInOrder(w, order), m, k);
  }

  lemma {:induction false} UnsparedIsUnsound(w: System) returns (order: seq<Thread>)
    requires !SparedSoFar(w)
    ensures IsOrder(w, order) && (forall t <- order :: t in w.threads) && !SoundOnReport(w, order)
  {
    var m, k :| !Held(w, m, k) && (AddPending(w, m, k) || (InView(w.view, m, k) && !DropPending(w, m, k)));
    if AddPending(w, m, k) {
      var c :| c in w.threads && LastOf(Pending(w.threads[c]), m, k) == Added;
      AddedLastIsUnsound(w, c, m, k);
      order := SomeOrder(w.threads.Keys - {c}) + [c];
    } else {
      order := SomeOrder(w.threads.Keys);
      OrderIsOfThreads(w, order);
      UntoldStays(w, order, m, k);
    }
  }

  /** The call performs its actions up to the one at n. */
  lemma {:induction false} PerformsUpTo(s: System, t: Thread, n: nat, m: string, k: string)
    returns (steps: seq<Step>, w: System)
    requires Fit(s, t) && UnderWay(s.threads[t]) && s.threads[t].pc <= n < |s.threads[t].call.body|
    ensures AllGoOn(steps) && Leads(s, steps, w) && OnlyMoved(s, w, t)
    ensures w.threads[t].Running? && w.threads[t].call == s.threads[t].call && w.threads[t].pc == n + 1
    ensures ViewTouch(s.threads[t].call.body[n], m, k) == Added ==> LastOf(Pending(w.threads[t]), m, k) == Added
    ensures StoreTouch(s.threads[t].call.body[n], m, k) == Dropped ==> !Held(w, m, k)
    decreases n - s.threads[t].pc
  {
    var p := s.threads[t];
    steps, w := Performs(s, t);
    EndsAdvance(p, m, k);
    if p.pc < n {
      StaysAble(s, w, t, t);
      var more, end := PerformsUpTo(w, t, n, m, k);
      LeadsOn(s, steps, w, more, end);
      AppendGoesOn(steps, more);
      MovedTwice(s, w, end, t);
      return steps + more, end;
    }
  }

  lemma {:induction false} RestIsOfBody(p: Phase, i: nat)
    requires i < |Rest(p)|
    ensures UnderWay(p) && p.pc + i < |p.call.body| && Rest(p)[i] == p.call.body[p.pc + i]
  {
  }

  /** The call has the addition of the pair to report, after it performed it if need be. */
  lemma {:induction false} AdditionIsReached(s: System, c: Thread, m: string, k: string)
    returns (steps: seq<Step>, w: System)
    requires Fit(s, c) && LiveAdds(s.threads[c], m, k)
    ensures AllGoOn(steps) && Leads(s, steps, w) && OnlyMoved(s, w, c)
    ensures LastOf(Pending(w.threads[c]), m, k) == Added
  {
    var p := s.threads[c];
    if LastOf(Pending(p), m, k) == Added {
      LeadsNowhere(s);
      assert s.threads[c := p] == s.threads;
      steps, w := [], s;
    } else {
      var i :| 0 <= i < |Rest(p)| && ViewTouch(Rest(p)[i], m, k) == Added;
      RestIsOfBody(p, i);
      steps, w := PerformsUpTo(s, c, p.pc + i, m, k);
    }
  }

  lemma {:induction false} RemovalIsReached(s: System, d: Thread, m: string, k: string)
    returns (steps: seq<Step>, w: System)
    requires Fit(s, d) && LiveRemoves(s.threads[d], m, k)
    ensures AllGoOn(steps) && Leads(s, steps, w) && OnlyMoved(s, w, d) && !Held(w, m, k)
  {
    var p := s.threads[d];
    var j :| 0 <= j < |Rest(p)| && StoreTouch(Rest(p)[j], m, k) == Dropped;
    RestIsOfBody(p, j);
    steps, w := PerformsUpTo(s, d, p.pc + j, m, k);
  }

  /** One call adds the pair, the other then removes it, and the addition is unreported. */
  lemma {:induction false} MeetingIsReached(s: System, c: Thread, d: Thread, m: string, k: string)
    returns (steps: seq<Step>, w: System)
    requires Fit(s, c) && Fit(s, d) && c != d
    requires LiveAdds(s.threads[c], m, k) && LiveRemoves(s.threads[d], m, k)
    ensures AllGoOn(steps) && Leads(s, steps, w) && !SparedSoFar(w)
  {
    var adding, mid := AdditionIsReached(s, c, m, k);
    StaysAble(s, mid, c, d);
    var removing, end := RemovalIsReached(mid, d, m, k);
    LeadsOn(s, adding, mid, removing, end);
    AppendGoesOn(adding, removing);
    steps, w := adding + removing, end;
    assert end.threads[c] == mid.threads[c];
    assert AddPending(end, m, k);
  }

  lemma {:induction false} UnsparedIsNotSoundThroughout(s: System, steps: seq<Step>, w: System)
    requires AllGoOn(steps) && Leads(s, steps, w) && !SparedSoFar(w)
    ensures !SoundThroughout(s)
  {
    var order := UnsparedIsUnsound(w);
  }

  /** Starting a call keeps the reports sound throughout exactly when it never meets the calls
      under way. */
  lemma {:induction false} StrictStartIffSoundThroughout(s: System, t: Thread, op: OperationType, key: string,
                                                         value: string)
    requires StrictInv(s) && Enabled(s, Begin(t, op, key, value)) && AllAble(Next(s, Begin(t, op, key, value)))
    ensures SoundThroughout(Next(s, Begin(t, op, key, value))) <==> Strict(s, Begin(t, op, key, value))
  {
    var begin, p := Begin(t, op, key, value), Begun(s, t, op, key, value);
    var s' := Next(s, begin);
    BeginKeepsBase(s, begin);
    if Strict(s, begin) {
      StepKeepsStrictInv(s, begin);
      InvIsSoundThroughout(s');
    } else {
      var c :| c in s.threads && c != t && !NeverMeet(p, s.threads[c]);
      assert s'.threads[t] == p && s'.threads[c] == s.threads[c];
      var m, k :| (LiveAdds(p, m, k) && LiveRemoves(s.threads[c], m, k))
                  || (LiveRemoves(p, m, k) && LiveAdds(s.threads[c], m, k));
      var steps, w;
      if LiveAdds(p, m, k) && LiveRemoves(s.threads[c], m, k) {
        steps, w := MeetingIsReached(s', t, c, m, k);
      } else {
        steps, w := MeetingIsReached(s', c, t, m, k);
      }
      UnsparedIsNotSoundThroughout(s', steps, w);
    }
  }

  /** A client's death keeps them sound throughout exactly when what the view claims without
      being stored has a drop to come from another client. */
  lemma {:induction false} StrictCrashIffSoundThroughout(s: System, client: string)
    requires StrictInv(s) && client in s.rules
    ensures SoundThroughout(Crashed(s, client)) <==> Strict(s, Crash(client))
  {
    var s' := Crashed(s, client);
    if SparedSoFar(s') {
      CrashKeepsStrictInv(s, client);
      InvIsSoundThroughout(s');
    } else {
      LeadsNowhere(s');
      UnsparedIsNotSoundThroughout(s', [], s');
    }
  }
}

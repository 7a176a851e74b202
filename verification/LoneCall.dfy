/** A call that nobody interrupts: the state machine's steps of one client add up to what
    the client's interpreter does in one go. */
module LoneCall {
  import opened Messages
  import opened Interpreter
  import opened Resolution
  import opened Cluster

  /** The steps, one after another, lead from s to w. */
  ghost predicate Leads(s: System, steps: seq<Step>, w: System) {
    exists run :: IsPath(run, steps) && run[0] == s && run[|steps|] == w
  }

  function ActionSteps(t: Thread, a: Action<Manager>): seq<Step> {
    if a.CopyFromAction? then [Act(t), Store(t)] else [Act(t)]
  }

  function BodySteps(t: Thread, body: seq<Action<Manager>>): seq<Step> {
    if body == [] then []
    else BodySteps(t, body[..|body| - 1]) + ActionSteps(t, body[|body| - 1])
  }

  function Repeat(step: Step, n: nat): (steps: seq<Step>)
    ensures |steps| == n
  {
    if n == 0 then [] else Repeat(step, n - 1) + [step]
  }

  function LogOf(op: OperationType, body: seq<Action<Manager>>): seq<Action<Manager>> {
    if op == GET then GetLog(body) else PutLog(body)
  }

  function ReportSteps(t: Thread, n: nat): seq<Step> {
    [Report(t)] + Repeat(Apply(t), n) + [Return(t)]
  }

  /** All steps of a call, from its request to its reply. */
  function CallSteps(t: Thread, call: Call): seq<Step> {
    [Begin(t, call.op, call.key, call.value)] + BodySteps(t, call.body)
    + ReportSteps(t, |Changes(LogOf(call.op, call.body))|)
  }

  lemma {:induction false} LeadsNowhere(s: System)
    ensures Leads(s, [], s)
  {
    assert IsPath([s], []);
  }

  lemma {:induction false} LeadsOn(s: System, a: seq<Step>, mid: System, b: seq<Step>, w: System)
    requires Leads(s, a, mid) && Leads(mid, b, w)
    ensures Leads(s, a + b, w)
  {
    var r :| IsPath(r, a) && r[0] == s && r[|a|] == mid;
    var q :| IsPath(q, b) && q[0] == mid && q[|b|] == w;
    var run, steps := r + q[1..], a + b;
    assert forall i :: 0 <= i <= |a| ==> run[i] == r[i];
    assert forall i :: 0 <= i <= |b| ==> run[|a| + i] == q[i];
    forall i | 0 <= i < |steps| ensures StepTo(run[i], steps[i], run[i + 1]) {
      if i < |a| {
        assert StepTo(r[i], a[i], r[i + 1]);
      } else {
        assert StepTo(q[i - |a|], b[i - |a|], q[i - |a| + 1]);
      }
    }
    assert IsPath(run, steps);
  }

  lemma {:induction false} LeadsOne(s: System, step: Step)
    requires Enabled(s, step)
    ensures Leads(s, [step], Next(s, step))
  {
    assert IsPath([s, Next(s, step)], [step]);
  }

  /** The state with these stores and this view, and t's call in this phase. */
  function At(s: System, t: Thread, stores: Stores, view: View, phase: Phase): System
    requires t in s.threads
  {
    s.(stores := stores, view := view, threads := s.threads[t := phase])
  }

  /** The call has performed the first n actions of its body. */
  function Progress(s: System, t: Thread, call: Call, n: nat): System
    requires t in s.threads && n <= |call.body|
  {
    At(s, t, Run(s.stores, Labels(call.body[..n], ByUri), call.value), s.view,
       Running(call, n, LogOf(call.op, call.body[..n])))
  }

  /** Every manager runs, and the body can be performed. */
  predicate Performable(s: System, t: Thread, call: Call) {
    && t in s.threads && call.op != REMOVE
    && s.serving == s.stores.Keys
    && Present(Labels(call.body, ByUri), s.stores.Keys)
    && forall i :: 0 <= i < |call.body| ==> Passes(call, call.body[i])
  }

  lemma {:induction false} LogGrows(call: Call, n: nat)
    requires n < |call.body| && Passes(call, call.body[n]) && call.op != REMOVE
    ensures LogOf(call.op, call.body[..n + 1]) == LogOf(call.op, call.body[..n]) + Logged(call, call.body[n])
  {
    assert call.body[..n + 1][..n] == call.body[..n];
  }

  lemma {:induction false} StoresGrow(st: Stores, call: Call, n: nat)
    requires n < |call.body|
    ensures Run(st, Labels(call.body[..n + 1], ByUri), call.value)
            == Effect(Run(st, Labels(call.body[..n], ByUri), call.value), Labelled(call.body[n], ByUri), call.value)
  {
    LabelsOfPrefix(call.body[..n + 1], n, ByUri);
    assert call.body[..n + 1][..n] == call.body[..n];
  }

  lemma {:induction false} Moves(s: System, t: Thread, stores: Stores, view: View, p: Phase, q: Phase)
    requires t in s.threads
    ensures WithPhase(At(s, t, stores, view, p), t, q) == At(s, t, stores, view, q)
  {
    assert WithPhase(At(s, t, stores, view, p), t, q).threads == At(s, t, stores, view, q).threads;
  }

  lemma {:induction false} ActsOnce(s: System, t: Thread, stores: Stores, view: View, p: Phase)
    requires t in s.threads && p.Running? && p.pc < |p.call.body| && !p.call.body[p.pc].CopyFromAction?
    requires Passes(p.call, p.call.body[p.pc]) && Ready(s, p.call.body[p.pc])
    ensures var a, before := p.call.body[p.pc], At(s, t, stores, view, p);
            && Enabled(before, Act(t))
            && Next(before, Act(t)) == At(s, t, Effect(stores, Labelled(a, ByUri), p.call.value), view,
                                          Running(p.call, p.pc + 1, p.log + Logged(p.call, a)))
  {
    var a := p.call.body[p.pc];
    Moves(s, t, Effect(stores, Labelled(a, ByUri), p.call.value), view, p,
          Running(p.call, p.pc + 1, p.log + Logged(p.call, a)));
  }

  lemma {:induction false} PullsOnce(s: System, t: Thread, stores: Stores, view: View, p: Phase)
    requires t in s.threads && p.Running? && p.pc < |p.call.body| && p.call.body[p.pc].CopyFromAction?
    requires Passes(p.call, p.call.body[p.pc]) && Ready(s, p.call.body[p.pc]) && s.serving == stores.Keys
    ensures var a, before := p.call.body[p.pc], At(s, t, stores, view, p);
            && Enabled(before, Act(t))
            && Next(before, Act(t))
                == At(s, t, stores, view, Pulled(p.call, p.pc, p.log, Read(stores, a.dstMgr.uri, a.key)))
  {
    var a := p.call.body[p.pc];
    Moves(s, t, stores, view, p, Pulled(p.call, p.pc, p.log, Read(stores, a.dstMgr.uri, a.key)));
  }

  lemma {:induction false} StoresOnce(s: System, t: Thread, stores: Stores, view: View, q: Phase)
    requires t in s.threads && q.Pulled? && q.pc < |q.call.body| && q.call.body[q.pc].CopyFromAction?
    requires Ready(s, q.call.body[q.pc])
    ensures var a, before := q.call.body[q.pc], At(s, t, stores, view, q);
            && Enabled(before, Store(t))
            && Next(before, Store(t)) == At(s, t, Write(stores, a.srcMgr.uri, a.key, q.value), view,
                                            Running(q.call, q.pc + 1, q.log + [a]))
  {
    var a := q.call.body[q.pc];
    Moves(s, t, Write(stores, a.srcMgr.uri, a.key, q.value), view, q, Running(q.call, q.pc + 1, q.log + [a]));
  }

  lemma {:induction false} Acts(s: System, t: Thread, stores: Stores, view: View, p: Phase)
    requires t in s.threads && p.Running? && p.pc < |p.call.body|
    requires Passes(p.call, p.call.body[p.pc]) && Ready(s, p.call.body[p.pc]) && s.serving == stores.Keys
    ensures var a := p.call.body[p.pc];
            Leads(At(s, t, stores, view, p), ActionSteps(t, a),
                  At(s, t, Effect(stores, Labelled(a, ByUri), p.call.value), view,
                     Running(p.call, p.pc + 1, p.log + Logged(p.call, a))))
  {
    var a, before := p.call.body[p.pc], At(s, t, stores, view, p);
    LeadsOne(before, Act(t));
    if a.CopyFromAction? {
      var q := Pulled(p.call, p.pc, p.log, Read(stores, a.dstMgr.uri, a.key));
      PullsOnce(s, t, stores, view, p);
      StoresOnce(s, t, stores, view, q);
      LeadsOne(At(s, t, stores, view, q), Store(t));
      LeadsOn(before, [Act(t)], At(s, t, stores, view, q), [Store(t)], Next(At(s, t, stores, view, q), Store(t)));
      assert [Act(t)] + [Store(t)] == ActionSteps(t, a);
    } else {
      ActsOnce(s, t, stores, view, p);
    }
  }

  lemma {:induction false} CanPerform(s: System, t: Thread, call: Call, n: nat)
    requires Performable(s, t, call) && n < |call.body|
    ensures Passes(call, call.body[n]) && Ready(s, call.body[n])
    ensures s.serving == Run(s.stores, Labels(call.body[..n], ByUri), call.value).Keys
  {
    RunKeepsAddresses(s.stores, Labels(call.body[..n], ByUri), call.value);
    assert Present1(Labels(call.body, ByUri)[n], s.stores.Keys);
  }

  lemma {:induction false} ProgressGrows(s: System, t: Thread, call: Call, n: nat)
    requires Performable(s, t, call) && n < |call.body|
    ensures var a, st := call.body[n], Run(s.stores, Labels(call.body[..n], ByUri), call.value);
            Progress(s, t, call, n + 1)
            == At(s, t, Effect(st, Labelled(a, ByUri), call.value), s.view,
                  Running(call, n + 1, LogOf(call.op, call.body[..n]) + Logged(call, a)))
  {
    LogGrows(call, n);
    StoresGrow(s.stores, call, n);
  }

  lemma {:induction false} PerformsAction(s: System, t: Thread, call: Call, n: nat)
    requires Performable(s, t, call) && n < |call.body|
    ensures Leads(Progress(s, t, call, n), ActionSteps(t, call.body[n]), Progress(s, t, call, n + 1))
  {
    CanPerform(s, t, call, n);
    ProgressGrows(s, t, call, n);
    Acts(s, t, Run(s.stores, Labels(call.body[..n], ByUri), call.value), s.view,
         Running(call, n, LogOf(call.op, call.body[..n])));
  }

  lemma {:induction false} PerformsBody(s: System, t: Thread, call: Call, n: nat)
    requires Performable(s, t, call) && n <= |call.body|
    ensures Leads(Progress(s, t, call, 0), BodySteps(t, call.body[..n]), Progress(s, t, call, n))
  {
    if n == 0 {
      LeadsNowhere(Progress(s, t, call, 0));
    } else {
      PerformsBody(s, t, call, n - 1);
      PerformsAction(s, t, call, n - 1);
      assert call.body[..n][..n - 1] == call.body[..n - 1];
      LeadsOn(Progress(s, t, call, 0), BodySteps(t, call.body[..n - 1]), Progress(s, t, call, n - 1),
              ActionSteps(t, call.body[n - 1]), Progress(s, t, call, n));
    }
  }

  lemma {:induction false} AppliesOnce(s: System, t: Thread, stores: Stores, view: View, call: Call, todo: seq<Change>)
    requires t in s.threads && todo != []
    ensures var before := At(s, t, stores, view, Reporting(call, todo));
            && Enabled(before, Apply(t))
            && Next(before, Apply(t)) == At(s, t, stores, ApplyChange(view, todo[0]), Reporting(call, todo[1..]))
  {
  }

  lemma {:induction false} AppliesReport(s: System, t: Thread, stores: Stores, view: View, call: Call,
                                         todo: seq<Change>, n: nat)
    requires t in s.threads && n <= |todo|
    ensures Leads(At(s, t, stores, view, Reporting(call, todo)), Repeat(Apply(t), n),
                  At(s, t, stores, ApplyAll(view, todo[..n]), Reporting(call, todo[n..])))
  {
    var before := At(s, t, stores, view, Reporting(call, todo));
    if n == 0 {
      assert todo[..0] == [] && todo[0..] == todo;
      LeadsNowhere(before);
    } else {
      var mid := At(s, t, stores, ApplyAll(view, todo[..n - 1]), Reporting(call, todo[n - 1..]));
      AppliesReport(s, t, stores, view, call, todo, n - 1);
      AppliesOnce(s, t, stores, ApplyAll(view, todo[..n - 1]), call, todo[n - 1..]);
      assert todo[..n][..n - 1] == todo[..n - 1] && todo[n - 1..][1..] == todo[n..];
      LeadsOne(mid, Apply(t));
      LeadsOn(before, Repeat(Apply(t), n - 1), mid, [Apply(t)], Next(mid, Apply(t)));
    }
  }

  /** What the whole call leaves behind. */
  function Done(s: System, call: Call): System {
    s.(stores := Run(s.stores, Labels(call.body, ByUri), call.value),
       view := Replay(s.view, Labels(LogOf(call.op, call.body), ByName)))
  }

  lemma {:induction false} StartsReport(s: System, t: Thread, stores: Stores, view: View, call: Call,
                                        log: seq<Action<Manager>>)
    requires t in s.threads
    ensures Leads(At(s, t, stores, view, Running(call, |call.body|, log)), [Report(t)],
                  At(s, t, stores, view, Reporting(call, Changes(log))))
  {
    LeadsOne(At(s, t, stores, view, Running(call, |call.body|, log)), Report(t));
    Moves(s, t, stores, view, Running(call, |call.body|, log), Reporting(call, Changes(log)));
  }

  lemma {:induction false} EndsReport(s: System, t: Thread, stores: Stores, view: View, call: Call)
    requires t in s.threads && s.threads[t].Idle?
    ensures Leads(At(s, t, stores, view, Reporting(call, [])), [Return(t)], s.(stores := stores, view := view))
  {
    var before := At(s, t, stores, view, Reporting(call, []));
    LeadsOne(before, Return(t));
    assert Next(before, Return(t)).threads == s.threads;
  }

  lemma {:induction false} PerformsReport(s: System, t: Thread, stores: Stores, call: Call, log: seq<Action<Manager>>)
    requires t in s.threads && s.threads[t].Idle?
    ensures Leads(At(s, t, stores, s.view, Running(call, |call.body|, log)), ReportSteps(t, |Changes(log)|),
                  s.(stores := stores, view := Replay(s.view, Labels(log, ByName))))
  {
    var p, todo := At(s, t, stores, s.view, Running(call, |call.body|, log)), Changes(log);
    var view := ApplyAll(s.view, todo);
    assert todo[..|todo|] == todo && todo[|todo|..] == [];
    StartsReport(s, t, stores, s.view, call, log);
    AppliesReport(s, t, stores, s.view, call, todo, |todo|);
    LeadsOn(p, [Report(t)], At(s, t, stores, s.view, Reporting(call, todo)),
            Repeat(Apply(t), |todo|), At(s, t, stores, view, Reporting(call, [])));
    EndsReport(s, t, stores, view, call);
    LeadsOn(p, [Report(t)] + Repeat(Apply(t), |todo|), At(s, t, stores, view, Reporting(call, [])),
            [Return(t)], s.(stores := stores, view := view));
    ChangesAreReplay(s.view, log);
  }

  lemma {:induction false} Begins(s: System, t: Thread, call: Call)
    requires Performable(s, t, call) && Enabled(s, Begin(t, call.op, call.key, call.value))
    requires call.body == BodyOf(call.op, s.rules[t.client][(call.op, call.key)])
    ensures Leads(s, [Begin(t, call.op, call.key, call.value)], Progress(s, t, call, 0))
  {
    LeadsOne(s, Begin(t, call.op, call.key, call.value));
  }

  /** The machine's steps of a call under way alone are the interpreter's run and the
      master's replay of its log. */
  lemma {:induction false} CallIsRun(s: System, t: Thread, call: Call)
    requires Performable(s, t, call) && Enabled(s, Begin(t, call.op, call.key, call.value))
    requires call.body == BodyOf(call.op, s.rules[t.client][(call.op, call.key)])
    ensures Leads(s, CallSteps(t, call), Done(s, call))
  {
    var begin, n, log := [Begin(t, call.op, call.key, call.value)], |call.body|, LogOf(call.op, call.body);
    assert call.body[..n] == call.body;
    Begins(s, t, call);
    PerformsBody(s, t, call, n);
    LeadsOn(s, begin, Progress(s, t, call, 0), BodySteps(t, call.body), Progress(s, t, call, n));
    PerformsReport(s, t, Done(s, call).stores, call, log);
    LeadsOn(s, begin + BodySteps(t, call.body), Progress(s, t, call, n), ReportSteps(t, |Changes(log)|), Done(s, call));
  }

  /** An uninterrupted Get does to stores and view what the client's Get does. */
  lemma {:induction false} LoneGetIsRunGet(s: System, t: Thread, key: string, value: string)
    requires Enabled(s, Begin(t, GET, key, value)) && s.serving == s.stores.Keys
    requires var acts := s.rules[t.client][(GET, key)].actions;
             GetExecutable(acts, key) && Present(Labels(acts, ByUri), s.stores.Keys)
    ensures var acts := s.rules[t.client][(GET, key)].actions;
            var body := acts[..|acts| - 1];
            Leads(s, CallSteps(t, Call(GET, key, value, body)),
                  s.(stores := RunGet(s.stores, Labels(acts, ByUri), key).stores,
                     view := Replay(s.view, Labels(GetLog(body), ByName))))
  {
    var acts := s.rules[t.client][(GET, key)].actions;
    var call := Call(GET, key, value, acts[..|acts| - 1]);
    LabelsOfPrefix(acts, |acts| - 1, ByUri);
    assert forall i :: 0 <= i < |call.body| ==> Labels(call.body, ByUri)[i] == Labels(acts, ByUri)[i];
    CallIsRun(s, t, call);
    LabelsKeepExecutable(acts, key, ByUri);
    GetReturnsIff(s.stores, Labels(acts, ByUri), key, value);
  }

  /** An uninterrupted Put does to stores and view what the client's Put does. */
  lemma {:induction false} LonePutIsPutLoop(s: System, t: Thread, key: string, value: string)
    requires Enabled(s, Begin(t, PUT, key, value)) && s.serving == s.stores.Keys && "" !in s.stores
    requires var acts := s.rules[t.client][(PUT, key)].actions;
             PutSteps(acts, key) && Present(Labels(acts, ByUri), s.stores.Keys)
    ensures var acts := s.rules[t.client][(PUT, key)].actions;
            Leads(s, CallSteps(t, Call(PUT, key, value, acts)),
                  s.(stores := PutLoop(s.stores, Labels(acts, ByUri), key, value).stores,
                     view := Replay(s.view, Labels(PutLog(acts), ByName))))
  {
    var acts := s.rules[t.client][(PUT, key)].actions;
    CallIsRun(s, t, Call(PUT, key, value, acts));
    LabelsKeepSteps(acts, key, ByUri);
    PutReturnsIff(s.stores, Labels(acts, ByUri), key, value);
  }
}

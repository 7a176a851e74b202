/** GetView never meets an unknown peer: in every reachable state, whatever the
    interleaving, every name the master or a client can still bring into the view
    belongs to a peer. */
module KnownPeers {
  import opened Messages
  import opened Interpreter
  import opened Resolution
  import opened Cluster

  ghost predicate KnownChanges(peers: Peers, cs: seq<Change>) {
    forall i :: 0 <= i < |cs| ==> cs[i].name in peers
  }

  ghost predicate KnownPhase(peers: Peers, p: Phase) {
    match p
    case Idle => true
    case Running(call, _, log) => AllKnown(peers, call.body) && AllKnown(peers, log)
    case Pulled(call, _, log, _) => AllKnown(peers, call.body) && AllKnown(peers, log)
    case Reporting(call, todo) => AllKnown(peers, call.body) && KnownChanges(peers, todo)
  }

  ghost predicate KnownRules(peers: Peers, rules: Rules) {
    forall o <- rules.Keys :: AllKnown(peers, rules[o].actions)
  }

  ghost predicate KnownInstalling(peers: Peers, i: Installing) {
    i.done <= |i.rule.actions| && AllKnown(peers, i.rule.actions[..i.done])
  }

  /** Names in the view, in half-built replies, in the resolved part of rules under way, in
      installed rules, in calls, logs and reports, and of joining managers once met, are all
      peers. */
  ghost predicate NamesKnown(s: System) {
    && s.view.Keys <= s.peers.Keys
    && (forall half <- s.halfReplies :: half.Keys <= s.peers.Keys)
    && (forall i <- s.installing :: KnownInstalling(s.peers, i))
    && (forall c <- s.rules.Keys :: KnownRules(s.peers, s.rules[c]))
    && (forall t <- s.threads.Keys :: KnownPhase(s.peers, s.threads[t]))
    && (forall u <- s.joining.Keys :: s.joining[u].Greeting? || s.joining[u].name in s.peers)
  }

  lemma {:induction false} ChangesKnown(peers: Peers, log: seq<Action<Manager>>)
    requires AllKnown(peers, log)
    ensures KnownChanges(peers, Changes(log))
  {
    if log != [] {
      ChangesKnown(peers, log[..|log| - 1]);
      assert Known(peers, log[|log| - 1]);
    }
  }

  /** Peers are never forgotten, so nothing known becomes unknown. */
  lemma {:induction false} KnownPhaseGrows(peers: Peers, p: Phase, name: string, uri: string)
    requires KnownPhase(peers, p)
    ensures KnownPhase(peers[name := uri], p)
  {
  }

  lemma {:induction false} MeetKeepsKnown(s: System, name: string, uri: string)
    requires NamesKnown(s)
    ensures NamesKnown(s.(peers := s.peers[name := uri]))
  {
    var peers' := s.peers[name := uri];
    forall t <- s.threads.Keys ensures KnownPhase(peers', s.threads[t]) {
      KnownPhaseGrows(s.peers, s.threads[t], name, uri);
    }
  }

  lemma {:induction false} PhaseKeepsKnown(s: System, t: Thread, phase: Phase)
    requires NamesKnown(s) && t in s.threads && KnownPhase(s.peers, phase)
    ensures NamesKnown(WithPhase(s, t, phase))
  {
  }

  lemma {:induction false} ManagerStepKeepsNamesKnown(s: System, step: Step)
    requires NamesKnown(s) && Enabled(s, step)
    requires step.ManagerStart? || step.ManagerMet? || step.ManagerReset? || step.ManagerFile? || step.ManagerServe?
    ensures NamesKnown(Next(s, step))
  {
    if step.ManagerMet? { MeetKeepsKnown(s, s.joining[step.uri].name, step.uri); }
  }

  lemma {:induction false} ResolvedIsKnown(peers: Peers, i: Installing)
    requires KnownInstalling(peers, i) && i.done < |i.rule.actions| && Known(peers, i.rule.actions[i.done])
    ensures KnownInstalling(peers, Resolved(peers, i))
  {
    var acts, acts' := i.rule.actions, Resolved(peers, i).rule.actions;
    forall j | 0 <= j <= i.done ensures Known(peers, acts'[j]) {
      assert j < i.done ==> acts'[j] == acts[..i.done][j];
    }
  }

  /** The steps that take a rule to a client or away from it. */
  predicate RuleStep(step: Step) {
    step.Ask? || step.ResolveNext? || step.Deliver? || step.Uninstall?
  }

  lemma {:induction false} RuleStepKeepsNamesKnown(s: System, step: Step)
    requires NamesKnown(s) && Enabled(s, step) && RuleStep(step)
    ensures NamesKnown(Next(s, step))
  {
    if step.ResolveNext? {
      ResolvedIsKnown(s.peers, step.installing);
    } else if step.Deliver? {
      var i := step.installing;
      assert KnownInstalling(s.peers, i) && i.rule.actions[..i.done] == i.rule.actions;
      assert KnownRules(s.peers, s.rules[i.client]);
    } else if step.Uninstall? {
      assert KnownRules(s.peers, s.rules[step.client]);
    }
  }

  /** The steps of one call. */
  predicate CallStep(step: Step) {
    step.Begin? || step.Act? || step.Store? || step.Report? || step.Apply? || step.Return?
  }

  lemma {:induction false} CallStepKeepsPhaseKnown(s: System, step: Step)
    requires NamesKnown(s) && Enabled(s, step) && CallStep(step)
    ensures KnownPhase(s.peers, Next(s, step).threads[step.thread])
  {
    var t := step.thread;
    var p := s.threads[t];
    assert KnownPhase(s.peers, p);
    if step.Begin? {
      assert KnownRules(s.peers, s.rules[t.client]);
    } else if step.Act? || step.Store? {
      assert Known(s.peers, p.call.body[p.pc]);
    } else if step.Report? {
      ChangesKnown(s.peers, p.log);
    }
  }

  /** A call's step changes its phase, the stores, and the view at a known name. */
  lemma {:induction false} CallStepIsLocal(s: System, step: Step)
    requires NamesKnown(s) && Enabled(s, step) && CallStep(step)
    ensures var s', t := Next(s, step), step.thread;
            s' == WithPhase(s, t, s'.threads[t]).(stores := s'.stores, view := s'.view)
            && s'.view.Keys <= s.peers.Keys
  {
    assert KnownPhase(s.peers, s.threads[step.thread]);
  }

  lemma {:induction false} CallStepKeepsNamesKnown(s: System, step: Step)
    requires NamesKnown(s) && Enabled(s, step) && CallStep(step)
    ensures NamesKnown(Next(s, step))
  {
    var s' := Next(s, step);
    CallStepKeepsPhaseKnown(s, step);
    CallStepIsLocal(s, step);
    PhaseKeepsKnown(s, step.thread, s'.threads[step.thread]);
    StoresAndViewKeepKnown(WithPhase(s, step.thread, s'.threads[step.thread]), s'.stores, s'.view);
  }

  lemma {:induction false} StoresAndViewKeepKnown(s: System, stores: Stores, view: View)
    requires NamesKnown(s) && view.Keys <= s.peers.Keys
    ensures NamesKnown(s.(stores := stores, view := view))
  {
  }

  lemma {:induction false} StepKeepsNamesKnown(s: System, step: Step)
    requires NamesKnown(s) && Enabled(s, step)
    ensures NamesKnown(Next(s, step))
  {
    if CallStep(step) {
      CallStepKeepsNamesKnown(s, step);
    } else if RuleStep(step) {
      RuleStepKeepsNamesKnown(s, step);
    } else {
      match step
      case ClientMet(name, c) => MeetKeepsKnown(s, name, c);
      case ManagerStop(_) =>
      case ViewBegin =>
      case Crash(c) =>
      case _ => ManagerStepKeepsNamesKnown(s, step);
    }
  }

  /** In every reachable state each name a GetView under way, or one starting now, will
      look up is a known peer. */
  lemma {:induction false} GetViewNeverMeetsUnknownPeer(run: seq<System>, steps: seq<Step>)
    requires IsRun(run, steps)
    ensures forall s <- run :: NamesKnown(s)
    ensures forall s <- run :: s.view.Keys <= s.peers.Keys && forall half <- s.halfReplies :: half.Keys <= s.peers.Keys
  {
    var n := |steps|;
    if n > 0 {
      GetViewNeverMeetsUnknownPeer(run[..n], steps[..n - 1]);
      assert run[n - 1] in run[..n];
      assert StepTo(run[n - 1], steps[n - 1], run[n]);
      StepKeepsNamesKnown(run[n - 1], steps[n - 1]);
      assert run == run[..n] + [run[n]];
    }
  }
}

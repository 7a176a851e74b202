/** What each step of the state machine does at one (manager, key) pair: to the store, to the
    view, and to what the call under way has still to do and to report there. */
module ConcurrentSteps {
  import opened Messages
  import opened Interpreter
  import opened Resolution
  import opened Cluster
  import opened KnownPeers

  // ---- One-to-one introductions ---------------------------------------------------

  /** The introduction keeps names and URIs one-to-one. */
  predicate CanMeet(peers: Peers, name: string, uri: string) {
    && (name in peers ==> peers[name] == uri)
    && (forall n <- peers.Keys :: peers[n] == uri ==> n == name)
  }

  /** Introductions keep names and URIs one-to-one. */
  predicate MeetsOneToOne(s: System, step: Step)
    requires Enabled(s, step)
  {
    match step
    case ManagerMet(u) => CanMeet(s.peers, s.joining[u].name, u)
    case ClientMet(name, c) => CanMeet(s.peers, name, c)
    case _ => true
  }

  ghost predicate CoherentRules(peers: Peers, rules: Rules) {
    forall o <- rules.Keys :: Coherent(peers, rules[o].actions)
  }

  ghost predicate CoherentInstalling(peers: Peers, i: Installing) {
    i.done <= |i.rule.actions| && Coherent(peers, i.rule.actions[..i.done])
  }

  function Body(p: Phase): seq<Action<Manager>> {
    if p.Idle? then [] else p.call.body
  }

  /** Rules carry the URIs of their names. */
  ghost predicate RulesCoherent(s: System) {
    && OneToOne(s.peers)
    && (forall i <- s.installing :: CoherentInstalling(s.peers, i))
    && (forall c <- s.rules.Keys :: CoherentRules(s.peers, s.rules[c]))
    && (forall t <- s.threads.Keys :: Coherent(s.peers, Body(s.threads[t])))
  }

  /** A joining manager serves no call, and still stores its snapshot. */
  ghost predicate JoinsIntact(s: System) {
    && s.serving <= s.stores.Keys
    && s.serving !! s.joining.Keys
    && forall u <- s.joining.Keys ::
         && u in s.stores
         && (forall i :: 0 <= i < |s.joining[u].keys| ==> s.joining[u].keys[i] in s.stores[u])
         && (!s.joining[u].Greeting? ==> s.joining[u].name in s.peers && s.peers[s.joining[u].name] == u)
  }

  /** What every run with one-to-one introductions keeps. */
  ghost predicate Base(s: System) {
    NamesKnown(s) && RulesCoherent(s) && JoinsIntact(s)
  }

  /** The named manager really stores the key. */
  predicate Held(s: System, m: string, k: string) {
    m in s.peers && Stored(s.stores, s.peers[m], k)
  }

  // ---- Touches ---------------------------------------------------------------------

  /** One touch after another. */
  function Then(first: Last, later: Last): Last {
    if later != Untouched then later else first
  }

  /** Whether something is there after the touch. */
  predicate After(touch: Last, before: bool) {
    touch == Added || (touch == Untouched && before)
  }

  /** What the action does to the pair in the stores. */
  function StoreTouch(a: Action<Manager>, m: string, k: string): Last {
    var named := Labelled(a, ByName);
    if Removes(named, m, k) then Dropped else if Writes(named, m, k) then Added else Untouched
  }

  /** What replaying the action does to the pair in the view. */
  function ViewTouch(a: Action<Manager>, m: string, k: string): Last {
    var named := Labelled(a, ByName);
    if Removes(named, m, k) || CopiesOut(named, m, k) then Dropped
    else if Writes(named, m, k) then Added else Untouched
  }

  function StoreNet(body: seq<Action<Manager>>, m: string, k: string): Last {
    if body == [] then Untouched else Then(StoreTouch(body[0], m, k), StoreNet(body[1..], m, k))
  }

  function ViewNet(body: seq<Action<Manager>>, m: string, k: string): Last {
    if body == [] then Untouched else Then(ViewTouch(body[0], m, k), ViewNet(body[1..], m, k))
  }

  ghost predicate AddsIn(body: seq<Action<Manager>>, m: string, k: string) {
    exists i :: 0 <= i < |body| && ViewTouch(body[i], m, k) == Added
  }

  ghost predicate RemovesIn(body: seq<Action<Manager>>, m: string, k: string) {
    exists i :: 0 <= i < |body| && StoreTouch(body[i], m, k) == Dropped
  }

  /** What ends in the view was written last, what ends removed is dropped from the view, and
      what is not touched there is not touched in the stores. */
  lemma {:induction false} NetsAgree(body: seq<Action<Manager>>, m: string, k: string)
    ensures ViewNet(body, m, k) == Added ==> StoreNet(body, m, k) == Added
    ensures StoreNet(body, m, k) == Dropped ==> ViewNet(body, m, k) == Dropped
    ensures ViewNet(body, m, k) == Untouched ==> StoreNet(body, m, k) == Untouched
    ensures ViewNet(body, m, k) == Added ==> AddsIn(body, m, k)
    ensures StoreNet(body, m, k) == Dropped ==> RemovesIn(body, m, k)
  {
    if body != [] {
      NetsAgree(body[1..], m, k);
      assert body == [body[0]] + body[1..];
      FirstOfRest(body[0], body[1..], m, k);
    }
  }

  lemma {:induction false} FirstOfRest(a: Action<Manager>, rest: seq<Action<Manager>>, m: string, k: string)
    ensures StoreNet([a] + rest, m, k) == Then(StoreTouch(a, m, k), StoreNet(rest, m, k))
    ensures ViewNet([a] + rest, m, k) == Then(ViewTouch(a, m, k), ViewNet(rest, m, k))
    ensures AddsIn([a] + rest, m, k) <==> ViewTouch(a, m, k) == Added || AddsIn(rest, m, k)
    ensures RemovesIn([a] + rest, m, k) <==> StoreTouch(a, m, k) == Dropped || RemovesIn(rest, m, k)
  {
    var all := [a] + rest;
    assert all[0] == a && all[1..] == rest;
    assert forall i :: 0 <= i < |rest| ==> all[i + 1] == rest[i];
    assert forall i :: 1 <= i < |all| ==> all[i] == rest[i - 1];
  }

  /** The actions a call has still to finish. */
  function Rest(p: Phase): seq<Action<Manager>> {
    match p
    case Idle => []
    case Running(call, pc, _) => if pc <= |call.body| then call.body[pc..] else []
    case Pulled(call, pc, _, _) => if pc <= |call.body| then call.body[pc..] else []
    case Reporting(_, _) => []
  }

  /** What a call's report would do to the pair by now, and the actions it has still to finish. */
  datatype Outlook = Outlook(pending: Last, rest: seq<Action<Manager>>)

  function OutlookOf(p: Phase, m: string, k: string): Outlook {
    Outlook(LastOf(Pending(p), m, k), Rest(p))
  }

  /** The call moved over one action that touches the pair in this way, or over none. */
  ghost predicate Performed(o: Outlook, o': Outlook, inStore: Last, inView: Last, m: string, k: string) {
    && o'.pending == Then(o.pending, inView)
    && ViewNet(o.rest, m, k) == Then(inView, ViewNet(o'.rest, m, k))
    && StoreNet(o.rest, m, k) == Then(inStore, StoreNet(o'.rest, m, k))
    && (AddsIn(o.rest, m, k) <==> inView == Added || AddsIn(o'.rest, m, k))
    && (RemovesIn(o.rest, m, k) <==> inStore == Dropped || RemovesIn(o'.rest, m, k))
    && (inStore == Dropped ==> inView == Dropped) && (inStore == Added ==> inView != Untouched)
    && (inView == Added ==> inStore == Added)
  }

  /** The master made one change of the call's report. */
  ghost predicate Reported(o: Outlook, o': Outlook, touch: Last) {
    o.rest == [] && o'.rest == [] && o.pending == Then(touch, o'.pending)
  }

  /** A step of t's call, seen at one pair. */
  ghost predicate MovesAt(s: System, s': System, t: Thread, m: string, k: string)
    requires t in s.threads && t in s'.threads
  {
    || (exists inStore, inView ::
          && Performed(OutlookOf(s.threads[t], m, k), OutlookOf(s'.threads[t], m, k), inStore, inView, m, k)
          && (Held(s', m, k) <==> After(inStore, Held(s, m, k)))
          && (InView(s'.view, m, k) <==> InView(s.view, m, k)))
    || (exists touch ::
          && Reported(OutlookOf(s.threads[t], m, k), OutlookOf(s'.threads[t], m, k), touch)
          && (Held(s', m, k) <==> Held(s, m, k))
          && (InView(s'.view, m, k) <==> After(touch, InView(s.view, m, k))))
  }

  /** A move of t's call leaves the other calls, the rules, the peers and the
      joining managers alone, and keeps the call's actions while it runs. */
  ghost predicate LocalMove(s: System, s': System, t: Thread) {
    && t in s.threads && s'.threads.Keys == s.threads.Keys
    && s'.peers == s.peers && s'.installing == s.installing && s'.rules == s.rules
    && s'.joining == s.joining && s'.serving == s.serving
    && (forall c <- s.threads.Keys :: c != t ==> s'.threads[c] == s.threads[c])
    && (Body(s'.threads[t]) == Body(s.threads[t]) || Body(s'.threads[t]) == [])
    && s'.stores.Keys == s.stores.Keys
    && (forall w <- s.joining.Keys :: w in s.stores ==> s'.stores[w] == s.stores[w])
  }

  ghost predicate CallMoves(s: System, s': System, t: Thread) {
    LocalMove(s, s', t) && forall m, k :: MovesAt(s, s', t, m, k)
  }

  /** No call moves, nothing stored goes, and new view entries are held. */
  ghost predicate Quiet(s: System, s': System) {
    && s'.threads == s.threads
    && forall m, k ::
         (Held(s, m, k) ==> Held(s', m, k)) && (InView(s'.view, m, k) ==> InView(s.view, m, k) || Held(s', m, k))
  }

  // ---- Steps of managers, introductions and rules -----------------------------------

  lemma {:induction false} CoherentGrows(peers: Peers, name: string, uri: string, acts: seq<Action<Manager>>)
    requires CanMeet(peers, name, uri) && Coherent(peers, acts)
    ensures Coherent(peers[name := uri], acts)
  {
    forall i | 0 <= i < |acts| ensures Coherent1(peers[name := uri], acts[i]) {
      assert Coherent1(peers, acts[i]);
    }
  }

  lemma {:induction false} MeetKeepsRules(s: System, name: string, uri: string)
    requires RulesCoherent(s) && CanMeet(s.peers, name, uri)
    ensures RulesCoherent(s.(peers := s.peers[name := uri]))
  {
    var peers' := s.peers[name := uri];
    forall i <- s.installing ensures CoherentInstalling(peers', i) {
      CoherentGrows(s.peers, name, uri, i.rule.actions[..i.done]);
    }
    forall c <- s.rules.Keys ensures CoherentRules(peers', s.rules[c]) {
      forall o <- s.rules[c].Keys ensures Coherent(peers', s.rules[c][o].actions) {
        assert CoherentRules(s.peers, s.rules[c]);
        CoherentGrows(s.peers, name, uri, s.rules[c][o].actions);
      }
    }
    forall t <- s.threads.Keys ensures Coherent(peers', Body(s.threads[t])) {
      CoherentGrows(s.peers, name, uri, Body(s.threads[t]));
    }
  }

  lemma {:induction false} MeetKeepsBase(s: System, name: string, uri: string)
    requires Base(s) && CanMeet(s.peers, name, uri)
    ensures Base(s.(peers := s.peers[name := uri])) && Quiet(s, s.(peers := s.peers[name := uri]))
  {
    MeetKeepsKnown(s, name, uri);
    MeetKeepsRules(s, name, uri);
  }

  lemma {:induction false} StartKeepsJoins(s: System, u: string, name: string, keys: seq<string>)
    requires JoinsIntact(s) && Enabled(s, ManagerStart(u, name, keys))
    ensures JoinsIntact(Next(s, ManagerStart(u, name, keys)))
  {
    forall i | 0 <= i < |keys| ensures keys[i] in s.stores[u] {
      assert keys[i] in multiset(keys);
    }
  }

  lemma {:induction false} JoinStepKeepsJoins(s: System, step: Step)
    requires JoinsIntact(s) && Enabled(s, step)
    requires step.ManagerReset? || step.ManagerFile? || step.ManagerServe? || step.ManagerStop?
    ensures JoinsIntact(Next(s, step))
  {
  }

  lemma {:induction false} NewEntriesHeld(s: System, step: Step)
    requires JoinsIntact(s) && Enabled(s, step)
    requires step.ManagerStart? || step.ManagerReset? || step.ManagerFile? || step.ManagerServe? || step.ManagerStop?
    ensures forall m, k :: InView(Next(s, step).view, m, k) ==> InView(s.view, m, k) || Held(s, m, k)
  {
    if step.ManagerFile? {
      var j := s.joining[step.uri];
      assert j.keys[0] in s.stores[step.uri];
      assert Held(s, j.name, j.keys[0]);
    }
  }

  lemma {:induction false} MetKeepsBase(s: System, u: string)
    requires Base(s) && Enabled(s, ManagerMet(u)) && CanMeet(s.peers, s.joining[u].name, u)
    ensures Base(Next(s, ManagerMet(u))) && Quiet(s, Next(s, ManagerMet(u)))
  {
    StepKeepsNamesKnown(s, ManagerMet(u));
    MeetKeepsBase(s, s.joining[u].name, u);
  }

  lemma {:induction false} ManagerStepKeepsBase(s: System, step: Step)
    requires Base(s) && Enabled(s, step)
    requires step.ManagerStart? || step.ManagerReset? || step.ManagerFile? || step.ManagerServe? || step.ManagerStop?
    ensures Base(Next(s, step)) && Quiet(s, Next(s, step))
  {
    StepKeepsNamesKnown(s, step);
    if step.ManagerStart? {
      StartKeepsJoins(s, step.uri, step.name, step.keys);
    } else {
      JoinStepKeepsJoins(s, step);
    }
    NewEntriesHeld(s, step);
  }

  lemma {:induction false} ResolvedIsCoherent(peers: Peers, i: Installing)
    requires CoherentInstalling(peers, i) && i.done < |i.rule.actions| && Known(peers, i.rule.actions[i.done])
    ensures CoherentInstalling(peers, Resolved(peers, i))
  {
    var acts, acts' := i.rule.actions, Resolved(peers, i).rule.actions;
    forall j | 0 <= j <= i.done ensures Coherent1(peers, acts'[j]) {
      assert j < i.done ==> acts'[j] == acts[..i.done][j];
    }
  }

  lemma {:induction false} RuleStepKeepsRules(s: System, step: Step)
    requires RulesCoherent(s) && Enabled(s, step) && RuleStep(step)
    ensures RulesCoherent(Next(s, step))
  {
    if step.ResolveNext? {
      ResolvedIsCoherent(s.peers, step.installing);
    } else if step.Deliver? {
      var i := step.installing;
      assert CoherentInstalling(s.peers, i) && i.rule.actions[..i.done] == i.rule.actions;
      assert CoherentRules(s.peers, s.rules[i.client]);
    } else if step.Uninstall? {
      assert CoherentRules(s.peers, s.rules[step.client]);
    }
  }

  lemma {:induction false} RuleStepKeepsBase(s: System, step: Step)
    requires Base(s) && Enabled(s, step) && RuleStep(step)
    ensures Base(Next(s, step)) && Quiet(s, Next(s, step))
  {
    StepKeepsNamesKnown(s, step);
    RuleStepKeepsRules(s, step);
  }

  lemma {:induction false} ViewStepKeepsBase(s: System)
    requires Base(s)
    ensures Base(Next(s, ViewBegin)) && Quiet(s, Next(s, ViewBegin))
  {
    StepKeepsNamesKnown(s, ViewBegin);
  }

  /** The steps outside of calls, but for a client's death. */
  lemma {:induction false} OtherStepIsQuiet(s: System, step: Step)
    requires Base(s) && Enabled(s, step) && MeetsOneToOne(s, step)
    requires !CallStep(step) && !step.Crash?
    ensures Base(Next(s, step)) && Quiet(s, Next(s, step))
  {
    if RuleStep(step) {
      RuleStepKeepsBase(s, step);
    } else if step.ViewBegin? {
      ViewStepKeepsBase(s);
    } else if step.ClientMet? {
      MeetKeepsBase(s, step.name, step.client);
    } else if step.ManagerMet? {
      MetKeepsBase(s, step.uri);
    } else {
      ManagerStepKeepsBase(s, step);
    }
  }

  /** A dying client takes its calls and rules along. */
  lemma {:induction false} CrashKeepsBase(s: System, client: string)
    requires Base(s) && client in s.rules
    ensures Base(Crashed(s, client))
  {
    StepKeepsNamesKnown(s, Crash(client));
    assert Body(Idle) == [];
  }

  // ---- Steps of a call ---------------------------------------------------------------

  function Begun(s: System, t: Thread, op: OperationType, key: string, value: string): Phase
    requires Enabled(s, Begin(t, op, key, value))
  {
    Running(Call(op, key, value, BodyOf(op, s.rules[t.client][(op, key)])), 0, [])
  }

  lemma {:induction false} BeginKeepsBase(s: System, step: Step)
    requires Base(s) && Enabled(s, step) && step.Begin?
    ensures Base(Next(s, step))
    ensures Next(s, step) == WithPhase(s, step.thread, Begun(s, step.thread, step.op, step.key, step.value))
  {
    StepKeepsNamesKnown(s, step);
    assert CoherentRules(s.peers, s.rules[step.thread.client]);
  }

  lemma {:induction false} LastOfChanges1(a: Action<Manager>, m: string, k: string)
    ensures LastOf(Changes1(a), m, k) == ViewTouch(a, m, k)
  {
    if a.CopyFromAction? {
      var first := [Add(a.srcMgr.name, a.key)];
      assert LastOf([], m, k) == Untouched && first[..0] == [];
      assert LastOf(first, m, k) == if a.srcMgr.name == m && a.key == k then Added else Untouched;
      assert Changes1(a)[..1] == first;
    }
  }

  lemma {:induction false} ChangesAppend1(log: seq<Action<Manager>>, a: Action<Manager>)
    ensures Changes(log + [a]) == Changes(log) + Changes1(a)
  {
    assert (log + [a])[..|log|] == log;
  }

  lemma {:induction false} LastOfLogged(log: seq<Action<Manager>>, logged: seq<Action<Manager>>, a: Action<Manager>,
                                        m: string, k: string)
    requires logged == [a] || (logged == [a, a] && a.RemoveAction?) || (logged == [] && a.NotSet?)
    ensures LastOf(Changes(log + logged), m, k) == Then(LastOf(Changes(log), m, k), ViewTouch(a, m, k))
  {
    LastOfChanges1(a, m, k);
    if logged == [] {
      assert log + logged == log;
    } else {
      ChangesAppend1(log, a);
      LastOfAppend(Changes(log), Changes1(a), m, k);
      if logged == [a, a] {
        assert log + logged == (log + [a]) + [a];
        ChangesAppend1(log + [a], a);
        LastOfAppend(Changes(log + [a]), Changes1(a), m, k);
      }
    }
  }

  /** An action by URI touches the pair as it does by name. */
  lemma {:induction false} HeldAfterEffect(s: System, a: Action<Manager>, value: string, m: string, k: string)
    requires OneToOne(s.peers) && Coherent1(s.peers, a) && Present1(Labelled(a, ByUri), s.stores.Keys)
    ensures var s' := s.(stores := Effect(s.stores, Labelled(a, ByUri), value));
            Held(s', m, k) <==> After(StoreTouch(a, m, k), Held(s, m, k))
  {
    if m in s.peers {
      StoredAfterEffect(s.stores, Labelled(a, ByUri), value, s.peers[m], k);
    }
  }

  lemma {:induction false} EffectIsLocal(st: Stores, a: Act, value: string, away: set<string>)
    requires match a
             case CopyFromAction(_, src, _) => src !in away
             case RemoveAction(_, mgr) => mgr !in away
             case PutAction(_, mgr) => mgr !in away
             case GetAction(_, _) => true
             case NotSet => true
    ensures Effect(st, a, value).Keys == st.Keys
    ensures forall w <- away :: w in st ==> Effect(st, a, value)[w] == st[w]
  {
  }

  lemma {:induction false} PullIsLocal(s: System, t: Thread)
    requires Enabled(s, Act(t))
    requires var p := s.threads[t]; p.call.body[p.pc].CopyFromAction?
    ensures LocalMove(s, Next(s, Act(t)), t)
  {
  }

  lemma {:induction false} ActIsLocal(s: System, t: Thread)
    requires JoinsIntact(s) && Enabled(s, Act(t))
    requires var p := s.threads[t]; !p.call.body[p.pc].CopyFromAction?
    ensures LocalMove(s, Next(s, Act(t)), t)
  {
    var p := s.threads[t];
    EffectIsLocal(s.stores, Labelled(p.call.body[p.pc], ByUri), p.call.value, s.joining.Keys);
  }

  lemma {:induction false} StoreIsLocal(s: System, t: Thread)
    requires JoinsIntact(s) && Enabled(s, Store(t))
    ensures LocalMove(s, Next(s, Store(t)), t)
  {
  }

  lemma {:induction false} ApplyIsLocal(s: System, t: Thread)
    requires Enabled(s, Apply(t))
    ensures LocalMove(s, Next(s, Apply(t)), t)
  {
  }

  lemma {:induction false} EndIsLocal(s: System, step: Step)
    requires Enabled(s, step) && (step.Report? || step.Return?)
    ensures LocalMove(s, Next(s, step), step.thread)
  {
  }

  lemma {:induction false} RestAdvances(call: Call, pc: nat, log: seq<Action<Manager>>, log': seq<Action<Manager>>,
                                        value: string)
    requires pc < |call.body|
    ensures Rest(Running(call, pc, log)) == [call.body[pc]] + Rest(Running(call, pc + 1, log'))
    ensures Rest(Pulled(call, pc, log, value)) == [call.body[pc]] + Rest(Running(call, pc + 1, log'))
  {
  }

  lemma {:induction false} OutlookAdvances(pending: Last, a: Action<Manager>, rest: seq<Action<Manager>>,
                                           m: string, k: string)
    ensures Performed(Outlook(pending, [a] + rest), Outlook(Then(pending, ViewTouch(a, m, k)), rest),
                      StoreTouch(a, m, k), ViewTouch(a, m, k), m, k)
  {
    FirstOfRest(a, rest, m, k);
  }

  lemma {:induction false} PhaseAdvances(p: Phase, log: seq<Action<Manager>>, m: string, k: string)
    requires (p.Running? || p.Pulled?) && p.pc < |p.call.body|
    ensures var a, o' := p.call.body[p.pc], OutlookOf(Running(p.call, p.pc + 1, log), m, k);
            && OutlookOf(p, m, k) == Outlook(LastOf(Changes(p.log), m, k), [a] + o'.rest)
            && o'.pending == LastOf(Changes(log), m, k)
  {
    RestAdvances(p.call, p.pc, p.log, log, if p.Pulled? then p.value else "");
  }

  lemma {:induction false} PhasePerforms(p: Phase, logged: seq<Action<Manager>>, m: string, k: string)
    requires (p.Running? || p.Pulled?) && p.pc < |p.call.body|
    requires var a := p.call.body[p.pc];
             logged == [a] || (logged == [a, a] && a.RemoveAction?) || (logged == [] && a.NotSet?)
    ensures var a, p' := p.call.body[p.pc], Running(p.call, p.pc + 1, p.log + logged);
            Performed(OutlookOf(p, m, k), OutlookOf(p', m, k), StoreTouch(a, m, k), ViewTouch(a, m, k), m, k)
  {
    var a, p' := p.call.body[p.pc], Running(p.call, p.pc + 1, p.log + logged);
    LastOfLogged(p.log, logged, a, m, k);
    PhaseAdvances(p, p.log + logged, m, k);
    OutlookAdvances(LastOf(Changes(p.log), m, k), a, OutlookOf(p', m, k).rest, m, k);
  }

  /** A call under way performed its next action, or the second half of it. */
  lemma {:induction false} PerformedMoves(s: System, s': System, t: Thread, effect: Action<Manager>, value: string,
                                          logged: seq<Action<Manager>>, m: string, k: string)
    requires OneToOne(s.peers) && t in s.threads && (s.threads[t].Running? || s.threads[t].Pulled?)
    requires s.threads[t].pc < |s.threads[t].call.body|
    requires s'.peers == s.peers && s'.view == s.view
    requires s'.stores == Effect(s.stores, Labelled(effect, ByUri), value)
    requires Coherent1(s.peers, effect) && Present1(Labelled(effect, ByUri), s.stores.Keys)
    requires var p := s.threads[t];
             var a := p.call.body[p.pc];
             && StoreTouch(effect, m, k) == StoreTouch(a, m, k)
             && (logged == [a] || (logged == [a, a] && a.RemoveAction?) || (logged == [] && a.NotSet?))
             && s'.threads == s.threads[t := Running(p.call, p.pc + 1, p.log + logged)]
    ensures MovesAt(s, s', t, m, k)
    ensures Held(s', m, k) <==> After(StoreTouch(effect, m, k), Held(s, m, k))
  {
    var p := s.threads[t];
    var a := p.call.body[p.pc];
    var o, o' := OutlookOf(p, m, k), OutlookOf(s'.threads[t], m, k);
    assert Performed(o, o', StoreTouch(a, m, k), ViewTouch(a, m, k), m, k) by { PhasePerforms(p, logged, m, k); }
    assert Held(s', m, k) <==> After(StoreTouch(a, m, k), Held(s, m, k)) by {
      HeldAfterEffect(s, effect, value, m, k);
      assert Held(s', m, k) == Held(s.(stores := s'.stores), m, k);
    }
    MovesByPerforming(s, s', t, StoreTouch(a, m, k), ViewTouch(a, m, k), m, k);
  }

  lemma {:induction false} MovesByPerforming(s: System, s': System, t: Thread, inStore: Last, inView: Last,
                                             m: string, k: string)
    requires t in s.threads && t in s'.threads
    requires Performed(OutlookOf(s.threads[t], m, k), OutlookOf(s'.threads[t], m, k), inStore, inView, m, k)
    requires Held(s', m, k) <==> After(inStore, Held(s, m, k))
    requires InView(s'.view, m, k) <==> InView(s.view, m, k)
    ensures MovesAt(s, s', t, m, k)
  {
  }

  lemma {:induction false} ActIsEffect(s: System, t: Thread)
    requires Enabled(s, Act(t)) && RulesCoherent(s) && s.serving <= s.stores.Keys
    requires var p := s.threads[t]; !p.call.body[p.pc].CopyFromAction?
    ensures var p, s' := s.threads[t], Next(s, Act(t));
            var a := p.call.body[p.pc];
            && s'.stores == Effect(s.stores, Labelled(a, ByUri), p.call.value)
            && s'.threads == s.threads[t := Running(p.call, p.pc + 1, p.log + Logged(p.call, a))]
            && s'.peers == s.peers && s'.view == s.view
            && Coherent1(s.peers, a) && Present1(Labelled(a, ByUri), s.stores.Keys)
  {
    var p := s.threads[t];
    assert Coherent(s.peers, Body(p)) && Coherent1(s.peers, p.call.body[p.pc]);
  }

  /** An action other than a copy. */
  lemma {:induction false} ActMoves(s: System, t: Thread)
    requires Base(s) && Enabled(s, Act(t))
    requires var p := s.threads[t]; !p.call.body[p.pc].CopyFromAction?
    ensures CallMoves(s, Next(s, Act(t)), t)
  {
    var p, s' := s.threads[t], Next(s, Act(t));
    var a := p.call.body[p.pc];
    ActIsLocal(s, t);
    ActIsEffect(s, t);
    forall m, k ensures MovesAt(s, s', t, m, k) {
      PerformedMoves(s, s', t, a, p.call.value, Logged(p.call, a), m, k);
    }
  }

  lemma {:induction false} NothingPerformed(s: System, s': System, t: Thread, m: string, k: string)
    requires t in s.threads && t in s'.threads
    requires Pending(s'.threads[t]) == Pending(s.threads[t]) && Rest(s'.threads[t]) == Rest(s.threads[t])
    requires s'.peers == s.peers && s'.stores == s.stores && s'.view == s.view
    ensures MovesAt(s, s', t, m, k)
  {
    assert Performed(OutlookOf(s.threads[t], m, k), OutlookOf(s'.threads[t], m, k), Untouched, Untouched, m, k);
  }

  /** The first half of a copy: only a value is read. */
  lemma {:induction false} PullMoves(s: System, t: Thread)
    requires Enabled(s, Act(t))
    requires var p := s.threads[t]; p.call.body[p.pc].CopyFromAction?
    ensures CallMoves(s, Next(s, Act(t)), t)
  {
    PullIsLocal(s, t);
    forall m, k ensures MovesAt(s, Next(s, Act(t)), t, m, k) {
      NothingPerformed(s, Next(s, Act(t)), t, m, k);
    }
  }

  /** The second half of a copy is a put of the pulled value. */
  lemma {:induction false} StoreIsPut(s: System, t: Thread)
    requires Enabled(s, Store(t)) && RulesCoherent(s) && s.serving <= s.stores.Keys
    ensures var p, s' := s.threads[t], Next(s, Store(t));
            var a := p.call.body[p.pc];
            var put := PutAction(a.key, a.srcMgr);
            && s'.stores == Effect(s.stores, Labelled(put, ByUri), p.value)
            && s'.threads == s.threads[t := Running(p.call, p.pc + 1, p.log + [a])]
            && s'.peers == s.peers && s'.view == s.view
            && Coherent1(s.peers, put) && Present1(Labelled(put, ByUri), s.stores.Keys)
  {
    var p := s.threads[t];
    assert Coherent(s.peers, Body(p)) && Coherent1(s.peers, p.call.body[p.pc]);
  }

  lemma {:induction false} StoreMoves(s: System, t: Thread)
    requires Base(s) && Enabled(s, Store(t))
    ensures CallMoves(s, Next(s, Store(t)), t)
  {
    var p, s' := s.threads[t], Next(s, Store(t));
    var a := p.call.body[p.pc];
    StoreIsLocal(s, t);
    StoreIsPut(s, t);
    forall m, k ensures MovesAt(s, s', t, m, k) {
      PerformedMoves(s, s', t, PutAction(a.key, a.srcMgr), p.value, [a], m, k);
    }
  }

  lemma {:induction false} FirstChange(view: View, todo: seq<Change>, m: string, k: string)
    requires todo != []
    ensures LastOf(todo, m, k) == Then(LastOf([todo[0]], m, k), LastOf(todo[1..], m, k))
    ensures InView(ApplyChange(view, todo[0]), m, k) <==> After(LastOf([todo[0]], m, k), InView(view, m, k))
  {
    assert todo == [todo[0]] + todo[1..] && [todo[0]][..0] == [];
    LastOfAppend([todo[0]], todo[1..], m, k);
    InViewAfterChanges(view, [todo[0]], m, k);
    assert ApplyAll(view, []) == view;
    assert ApplyAll(view, [todo[0]]) == ApplyChange(view, todo[0]);
  }

  lemma {:induction false} ApplyMoves(s: System, t: Thread)
    requires Enabled(s, Apply(t))
    ensures CallMoves(s, Next(s, Apply(t)), t)
  {
    var s', todo := Next(s, Apply(t)), s.threads[t].todo;
    ApplyIsLocal(s, t);
    forall m, k ensures MovesAt(s, s', t, m, k) {
      FirstChange(s.view, todo, m, k);
      assert Reported(OutlookOf(s.threads[t], m, k), OutlookOf(s'.threads[t], m, k), LastOf([todo[0]], m, k));
      assert Held(s', m, k) == Held(s, m, k);
    }
  }

  /** Report and Return leave what is pending as it was. */
  lemma {:induction false} EndMoves(s: System, step: Step)
    requires Enabled(s, step) && (step.Report? || step.Return?)
    ensures CallMoves(s, Next(s, step), step.thread)
  {
    var s', t := Next(s, step), step.thread;
    EndIsLocal(s, step);
    assert Pending(s'.threads[t]) == Pending(s.threads[t]) && Rest(s'.threads[t]) == Rest(s.threads[t]);
    forall m, k ensures MovesAt(s, s', t, m, k) {
      NothingPerformed(s, s', t, m, k);
    }
  }

  lemma {:induction false} CallMoveKeepsBase(s: System, s': System, t: Thread)
    requires Base(s) && NamesKnown(s') && LocalMove(s, s', t)
    ensures Base(s')
  {
  }

  /** A call under way goes on. */
  lemma {:induction false} CallStepMoves(s: System, step: Step)
    requires Base(s) && Enabled(s, step) && CallStep(step) && !step.Begin?
    ensures Base(Next(s, step)) && CallMoves(s, Next(s, step), step.thread)
  {
    match step {
      case Act(t) =>
        var p := s.threads[t];
        if p.call.body[p.pc].CopyFromAction? { PullMoves(s, t); } else { ActMoves(s, t); }
      case Store(t) => StoreMoves(s, t);
      case Apply(t) => ApplyMoves(s, t);
      case Report(_) => EndMoves(s, step);
      case Return(_) => EndMoves(s, step);
    }
    StepKeepsNamesKnown(s, step);
    CallMoveKeepsBase(s, Next(s, step), step.thread);
  }
}

/** The storage service as a state machine over its atomic steps: every lock-protected
    operation of the master, every RPC at a manager and every move of a client is one
    step, and steps of different clients and managers interleave freely. */
module Cluster {
  import opened Messages
  import opened Interpreter
  import opened Resolution

  // ---- Changes the master still has to make -----------------------------------

  /** One locked operation of the master on its file view. */
  datatype Change = Add(name: string, key: string) | Drop(name: string, key: string)

  function ApplyChange(view: View, c: Change): View {
    match c
    case Add(name, key) => AddFile(view, name, key)
    case Drop(name, key) => RemoveFile(view, name, key)
  }

  function ApplyAll(view: View, cs: seq<Change>): View {
    if cs == [] then view else ApplyChange(ApplyAll(view, cs[..|cs| - 1]), cs[|cs| - 1])
  }

  function Changes1(a: Action<Manager>): seq<Change> {
    match a
    case CopyFromAction(key, src, dst) => [Add(src.name, key), Drop(dst.name, key)]
    case RemoveAction(key, mgr) => [Drop(mgr.name, key)]
    case PutAction(key, mgr) => [Add(mgr.name, key)]
    case GetAction(_, _) => []
    case NotSet => []
  }

  function Changes(log: seq<Action<Manager>>): seq<Change> {
    if log == [] then [] else Changes(log[..|log| - 1]) + Changes1(log[|log| - 1])
  }

  datatype Last = Untouched | Added | Dropped

  /** The last of the changes to a pair decides it. */
  function LastOf(cs: seq<Change>, m: string, k: string): Last {
    if cs == [] then Untouched
    else
      var c := cs[|cs| - 1];
      if c.name == m && c.key == k then (if c.Add? then Added else Dropped)
      else LastOf(cs[..|cs| - 1], m, k)
  }

  lemma {:induction false} LastOfAppend(a: seq<Change>, b: seq<Change>, m: string, k: string)
    ensures LastOf(a + b, m, k) == if LastOf(b, m, k) != Untouched then LastOf(b, m, k) else LastOf(a, m, k)
  {
    if b == [] {
      assert a + b == a;
    } else {
      LastOfAppend(a, b[..|b| - 1], m, k);
      assert (a + b)[..|a + b| - 1] == a + b[..|b| - 1];
    }
  }

  lemma {:induction false} ApplyAllAppend(view: View, a: seq<Change>, b: seq<Change>)
    ensures ApplyAll(view, a + b) == ApplyAll(ApplyAll(view, a), b)
  {
    if b == [] {
      assert a + b == a;
    } else {
      ApplyAllAppend(view, a, b[..|b| - 1]);
      assert (a + b)[..|a + b| - 1] == a + b[..|b| - 1];
    }
  }

  lemma {:induction false} InViewAfterChanges(view: View, cs: seq<Change>, m: string, k: string)
    ensures InView(ApplyAll(view, cs), m, k) <==>
            match LastOf(cs, m, k) case Added => true case Dropped => false case Untouched => InView(view, m, k)
  {
    if cs != [] { InViewAfterChanges(view, cs[..|cs| - 1], m, k); }
  }

  lemma {:induction false} Changes1AreReplay1(view: View, a: Action<Manager>)
    ensures ApplyAll(view, Changes1(a)) == Replay1(view, Labelled(a, ByName))
  {
    assert ApplyAll(view, []) == view;
    if a.CopyFromAction? {
      assert Changes1(a)[..1] == [Add(a.srcMgr.name, a.key)];
      assert Changes1(a)[..1][..0] == [];
    }
  }

  /** The locked operations are what the master's replay of the log does by name. */
  lemma {:induction false} ChangesAreReplay(view: View, log: seq<Action<Manager>>)
    ensures ApplyAll(view, Changes(log)) == Replay(view, Labels(log, ByName))
  {
    if log != [] {
      var n := |log| - 1;
      ChangesAreReplay(view, log[..n]);
      LabelsOfPrefix(log, n, ByName);
      ApplyAllAppend(view, Changes(log[..n]), Changes1(log[n]));
      Changes1AreReplay1(ApplyAll(view, Changes(log[..n])), log[n]);
    }
  }

  /** Two logs can be replayed in either order at a pair exactly when one of them leaves
      the pair alone or both end on the same change to it. */
  lemma {:induction false} LogsCommuteIff(view: View, a: seq<Change>, b: seq<Change>, m: string, k: string)
    ensures (InView(ApplyAll(ApplyAll(view, a), b), m, k) <==> InView(ApplyAll(ApplyAll(view, b), a), m, k)) <==>
            LastOf(a, m, k) == Untouched || LastOf(b, m, k) == Untouched || LastOf(a, m, k) == LastOf(b, m, k)
  {
    InViewAfterChanges(view, a, m, k);
    InViewAfterChanges(view, b, m, k);
    InViewAfterChanges(ApplyAll(view, a), b, m, k);
    InViewAfterChanges(ApplyAll(view, b), a, m, k);
  }

  // ---- The system -------------------------------------------------------------

  /** A Get or Put under way, with the actions its loop performs. */
  datatype Call = Call(op: OperationType, key: string, value: string, body: seq<Action<Manager>>)

  datatype Phase =
    | Idle
    | Running(call: Call, pc: nat, log: seq<Action<Manager>>)
      // The source manager of the copy at pc has read the value and not yet stored it.
    | Pulled(call: Call, pc: nat, log: seq<Action<Manager>>, value: string)
      // The master has these changes of the reported log left to make.
    | Reporting(call: Call, todo: seq<Change>)

  /** A client serves each call on a thread of its own. */
  datatype Thread = Thread(client: string, id: nat)

  type Rules = map<(OperationType, string), Rule>

  /** A rule on its way through the master to a client, with its first `done` actions resolved. */
  datatype Installing = Installing(client: string, rule: Rule, done: nat)

  /** A manager between its snapshot of the keys and its first served call. */
  datatype Joining =
    | Greeting(name: string, keys: seq<string>)
    | Resetting(name: string, keys: seq<string>)
    | Filling(name: string, keys: seq<string>)

  /** Managers and clients are addressed by URI. A manager in `stores` that is neither
      serving nor joining is stopped. Rules under way and half-built replies are kept for
      ever, so they can be finished at any later time, once, more often or never. */
  datatype System = System(
    peers: Peers,
    view: View,
    stores: Stores,
    serving: set<string>,
    joining: map<string, Joining>,
    rules: map<string, Rules>,
    threads: map<Thread, Phase>,
    installing: set<Installing>,
    halfReplies: set<View>)

  datatype Step =
    | ManagerStart(uri: string, name: string, keys: seq<string>)
    | ManagerMet(uri: string)
    | ManagerReset(uri: string)
    | ManagerFile(uri: string)
    | ManagerServe(uri: string)
    | ManagerStop(uri: string)
    | ClientMet(name: string, client: string)
    | Ask(name: string, rule: Rule)
    | ResolveNext(installing: Installing)
    | Deliver(installing: Installing)
    | Uninstall(client: string, op: OperationType, key: string)
    | Begin(thread: Thread, op: OperationType, key: string, value: string)
    | Act(thread: Thread)
    | Store(thread: Thread)
    | Report(thread: Thread)
    | Apply(thread: Thread)
    | Return(thread: Thread)
    | Crash(client: string)
    | ViewBegin

  predicate Initial(s: System) {
    && s.peers == map[] && s.view == map[]
    && s.serving == {} && s.joining == map[]
    && (forall c <- s.rules.Keys :: s.rules[c] == map[])
    && (forall t <- s.threads.Keys :: s.threads[t] == Idle)
    && s.installing == {} && s.halfReplies == {}
  }

  function BodyOf(op: OperationType, rule: Rule): seq<Action<Manager>>
    requires rule.actions != []
  {
    if op == GET then rule.actions[..|rule.actions| - 1] else rule.actions
  }

  /** The loop's assertions pass on this action. */
  predicate Passes(call: Call, a: Action<Manager>) {
    if call.op == GET then GetStep(a) else PutStep(a, call.key)
  }

  /** A client's call to a manager waits until the manager serves. */
  predicate Ready(s: System, a: Action<Manager>) {
    match a
    case CopyFromAction(_, src, _) => src.uri in s.serving
    case RemoveAction(_, mgr) => mgr.uri in s.serving
    case PutAction(_, mgr) => mgr.uri in s.serving
    case GetAction(_, _) => true
    case NotSet => true
  }

  predicate Enabled(s: System, step: Step) {
    match step
    case ManagerStart(u, _, keys) =>
      u in s.stores && u !in s.serving && u !in s.joining && multiset(keys) == multiset(s.stores[u].Keys)
    case ManagerMet(u) => u in s.joining && s.joining[u].Greeting?
    case ManagerReset(u) => u in s.joining && s.joining[u].Resetting?
    case ManagerFile(u) => u in s.joining && s.joining[u].Filling? && s.joining[u].keys != []
    case ManagerServe(u) => u in s.joining && s.joining[u].Filling? && s.joining[u].keys == []
    case ManagerStop(u) => u in s.serving
    case ClientMet(_, c) => c in s.rules
    case Ask(name, _) => name in s.peers
    case ResolveNext(i) =>
      i in s.installing && i.done < |i.rule.actions| && Known(s.peers, i.rule.actions[i.done])
    case Deliver(i) => i in s.installing && i.done == |i.rule.actions| && i.client in s.rules
    case Uninstall(c, _, _) => c in s.rules
    case Begin(t, op, key, _) =>
      && t in s.threads && s.threads[t].Idle? && t.client in s.rules && op != REMOVE
      && (op, key) in s.rules[t.client] && s.rules[t.client][(op, key)].actions != []
    case Act(t) =>
      && t in s.threads && s.threads[t].Running?
      && var p := s.threads[t];
         p.pc < |p.call.body| && Passes(p.call, p.call.body[p.pc]) && Ready(s, p.call.body[p.pc])
    case Store(t) =>
      && t in s.threads && s.threads[t].Pulled?
      && var p := s.threads[t];
         p.pc < |p.call.body| && p.call.body[p.pc].CopyFromAction? && Ready(s, p.call.body[p.pc])
    case Report(t) =>
      t in s.threads && s.threads[t].Running? && s.threads[t].pc == |s.threads[t].call.body|
    case Apply(t) => t in s.threads && s.threads[t].Reporting? && s.threads[t].todo != []
    case Return(t) => t in s.threads && s.threads[t].Reporting? && s.threads[t].todo == []
    case Crash(c) => c in s.rules
    case ViewBegin => true
  }

  function WithPhase(s: System, t: Thread, phase: Phase): System
    requires t in s.threads
  {
    s.(threads := s.threads[t := phase])
  }

  /** What the manager's pull of a copy returns: an unreachable or keyless destination
      reads as the empty value. */
  function Pull(s: System, a: Action<Manager>): string
    requires a.CopyFromAction?
  {
    if a.dstMgr.uri in s.serving then Read(s.stores, a.dstMgr.uri, a.key) else ""
  }

  /** A fallen-through Remove of a Put rule is logged twice; its stray Put reaches no manager. */
  function Logged(call: Call, a: Action<Manager>): seq<Action<Manager>> {
    if a.NotSet? then [] else if a.RemoveAction? && call.op != GET then [a, a] else [a]
  }

  function ActStep(s: System, t: Thread): System
    requires Enabled(s, Act(t))
  {
    var p := s.threads[t];
    var a := p.call.body[p.pc];
    if a.CopyFromAction? then
      WithPhase(s, t, Pulled(p.call, p.pc, p.log, Pull(s, a)))
    else
      var s' := s.(stores := Effect(s.stores, Labelled(a, ByUri), p.call.value));
      WithPhase(s', t, Running(p.call, p.pc + 1, p.log + Logged(p.call, a)))
  }

  /** The same rule with one more action resolved. */
  function Resolved(peers: Peers, i: Installing): Installing
    requires i.done < |i.rule.actions| && Known(peers, i.rule.actions[i.done])
  {
    Installing(i.client,
               i.rule.(actions := i.rule.actions[i.done := Resolve(peers, i.rule.actions[i.done])]),
               i.done + 1)
  }

  function Next(s: System, step: Step): System
    requires Enabled(s, step)
  {
    match step
    case ManagerStart(u, name, keys) => s.(joining := s.joining[u := Greeting(name, keys)])
    case ManagerMet(u) =>
      var j := s.joining[u];
      s.(peers := s.peers[j.name := u], joining := s.joining[u := Resetting(j.name, j.keys)])
    case ManagerReset(u) =>
      var j := s.joining[u];
      s.(view := s.view[j.name := {}], joining := s.joining[u := Filling(j.name, j.keys)])
    case ManagerFile(u) =>
      var j := s.joining[u];
      s.(view := AddFile(s.view, j.name, j.keys[0]), joining := s.joining[u := Filling(j.name, j.keys[1..])])
    case ManagerServe(u) => s.(joining := s.joining - {u}, serving := s.serving + {u})
    case ManagerStop(u) => s.(serving := s.serving - {u})
    case ClientMet(name, c) => s.(peers := s.peers[name := c])
    case Ask(name, rule) => s.(installing := s.installing + {Installing(s.peers[name], rule, 0)})
    case ResolveNext(i) => s.(installing := s.installing + {Resolved(s.peers, i)})
    case Deliver(i) => s.(rules := s.rules[i.client := s.rules[i.client][(i.rule.opType, i.rule.key) := i.rule]])
    case Uninstall(c, op, key) => s.(rules := s.rules[c := s.rules[c] - {(op, key)}])
    case Begin(t, op, key, value) =>
      WithPhase(s, t, Running(Call(op, key, value, BodyOf(op, s.rules[t.client][(op, key)])), 0, []))
    case Act(t) => ActStep(s, t)
    case Store(t) =>
      var p := s.threads[t];
      var a := p.call.body[p.pc];
      var s' := s.(stores := Write(s.stores, a.srcMgr.uri, a.key, p.value));
      WithPhase(s', t, Running(p.call, p.pc + 1, p.log + [a]))
    case Report(t) => WithPhase(s, t, Reporting(s.threads[t].call, Changes(s.threads[t].log)))
    case Apply(t) =>
      var p := s.threads[t];
      WithPhase(s.(view := ApplyChange(s.view, p.todo[0])), t, Reporting(p.call, p.todo[1..]))
    case Return(t) => WithPhase(s, t, Idle)
    case Crash(c) => Crashed(s, c)
    case ViewBegin => s.(halfReplies := s.halfReplies + {s.view})
  }

  /** A failed assertion ends the client with all its calls and its rules. */
  function Crashed(s: System, client: string): System {
    s.(rules := s.rules[client := map[]],
       threads := map t | t in s.threads :: if t.client == client then Idle else s.threads[t])
  }

  predicate StepTo(s: System, step: Step, t: System) {
    Enabled(s, step) && t == Next(s, step)
  }

  ghost predicate IsPath(run: seq<System>, steps: seq<Step>) {
    && |run| == |steps| + 1
    && forall i :: 0 <= i < |steps| ==> StepTo(run[i], steps[i], run[i + 1])
  }

  /** A run from an initial state. */
  ghost predicate IsRun(run: seq<System>, steps: seq<Step>) {
    IsPath(run, steps) && Initial(run[0])
  }

  /** The changes of a call that the master has not made yet. */
  function Pending(p: Phase): seq<Change> {
    match p
    case Idle => []
    case Running(_, _, log) => Changes(log)
    case Pulled(_, _, log, _) => Changes(log)
    case Reporting(_, todo) => todo
  }
}

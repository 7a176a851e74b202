/** The scheduler's epoch: pack the pending tasks, shortest job first, into the free
    slots of the schedulable engines, then install rules and send each task. */
module Scheduling {
  import opened Messages
  import opened Resolution
  import opened Master
  import opened SystemView
  import opened Packing

  const DEFAULT_DECISION := Decision("", Task("", "", ""), [])

  /** A pending task with the remaining tasks of its job. */
  datatype Pending = Pending(task: string, remaining: int)

  function TasksOf(pairs: seq<Pending>): (tasks: seq<string>)
    ensures |tasks| == |pairs|
  {
    seq(|pairs|, i requires 0 <= i < |pairs| => pairs[i].task)
  }

  /** All pending tasks, those of jobs with fewer remaining tasks first. */
  ghost predicate ShortestFirst(order: seq<string>, pending: seq<string>, remaining: string -> int) {
    multiset(order) == multiset(pending) && Ascending(order, remaining)
  }

  /** The lookups that a task's rules need succeed. */
  predicate Resolvable(m: Maps, t: Task) {
    && (t.inputFile != "" ==> t.inputFile in m.persistantKeyToMgr)
    && (t.outputFile != "" ==> m.persistantKeyToMgr != map[])
  }

  function GetRule(file: string, mgr: string): Rule {
    Rule(GET, file, [GetAction(file, Manager(mgr, ""))])
  }

  function PutRule(file: string, mgr: string): Rule {
    Rule(PUT, file, [PutAction(file, Manager(mgr, ""))])
  }

  /** A task with an input reads it from its persistent manager; a task with an output
      writes it to some persistent manager. */
  ghost predicate RulesFor(m: Maps, t: Task, rules: seq<Rule>) {
    && Resolvable(m, t)
    && |rules| == (if t.inputFile != "" then 1 else 0) + (if t.outputFile != "" then 1 else 0)
    && (t.inputFile != "" ==> rules[0] == GetRule(t.inputFile, m.persistantKeyToMgr[t.inputFile]))
    && (t.outputFile != ""
        ==> exists mgr <- m.persistantKeyToMgr.Values :: rules[|rules| - 1] == PutRule(t.outputFile, mgr))
  }

  /** The decisions take the first tasks of the order, with the rules of each. */
  ghost predicate Takes(m: Maps, order: seq<string>, taskOf: string -> Task, ds: seq<Decision>) {
    && |ds| <= |order|
    && forall i :: 0 <= i < |ds| ==>
         ds[i].task == taskOf(order[i]) && RulesFor(m, ds[i].task, ds[i].rules)
  }

  /** If a task is left over, every schedulable engine is full. */
  ghost predicate LeavesNoSlot(m: Maps, order: seq<string>, ds: seq<Decision>) {
    |ds| < |order| ==> forall e <- Schedulable(m) :: Count(ds, e) == Free(m, e)
  }

  ghost predicate Packed(m: Maps, order: seq<string>, taskOf: string -> Task, ds: seq<Decision>) {
    Takes(m, order, taskOf, ds) && Fits(m, ds) && LeavesNoSlot(m, order, ds)
  }

  /** What the source pushes: `back()` is copied, so the filled-in copy is dropped and the
      default decision stays. Read as a reference, the filled-in decisions are pushed. */
  function Pushed(ds: seq<Decision>, byReference: bool): (r: seq<Decision>)
    ensures |r| == |ds|
  {
    if byReference then ds else seq(|ds|, i => DEFAULT_DECISION)
  }

  ghost function Slots(m: Maps): int {
    SumOf(FreeSlots(m))
  }

  function Min(a: int, b: int): int {
    if a < b then a else b
  }

  /** Work conservation: exactly as many decisions as there are tasks and slots for. */
  lemma {:induction false} PackedCount(m: Maps, order: seq<string>, taskOf: string -> Task, ds: seq<Decision>)
    requires Packed(m, order, taskOf, ds)
    ensures |ds| == Min(|order|, Slots(m))
  {
    FittingIsBounded(m, ds);
  }

  /** Shortest first: the decisions are about the first tasks of the order, each pending entry
      is used at most once, no other choice of as many pending tasks has a smaller total of
      remaining tasks, and no task left over is of a shorter job than one taken. */
  lemma {:induction false} PackedIsShortestFirst(m: Maps, order: seq<string>, taskOf: string -> Task,
                                                 ds: seq<Decision>, pending: seq<string>,
                                                 remaining: string -> int, choice: seq<string>)
    requires Packed(m, order, taskOf, ds) && ShortestFirst(order, pending, remaining)
    requires multiset(choice) <= multiset(pending) && |choice| == |ds|
    ensures |ds| <= |order| && forall i :: 0 <= i < |ds| ==> ds[i].task == taskOf(order[i])
    ensures multiset(order[..|ds|]) <= multiset(pending)
    ensures Total(order[..|ds|], remaining) <= Total(choice, remaining)
    ensures forall i, j :: 0 <= i < |ds| <= j < |order| ==> remaining(order[i]) <= remaining(order[j])
  {
    assert order == order[..|ds|] + order[|ds|..];
    PrefixIsCheapest(order, choice, remaining);
  }

  lemma {:induction false} CountOfAppend(ds: seq<Decision>, d: Decision, e: string)
    ensures Count(ds + [d], e) == Count(ds, e) + if d.engine == e then 1 else 0
  {
    assert (ds + [d])[..|ds|] == ds;
  }

  lemma {:induction false} ListedOnce(engines: seq<string>, s: set<string>)
    requires multiset(engines) == multiset(s)
    ensures forall i, j :: 0 <= i < j < |engines| ==> engines[i] != engines[j]
    ensures forall e :: e in engines <==> e in s
  {
    assert forall e :: e in engines <==> e in multiset(engines);
    forall i, j | 0 <= i < j < |engines| ensures engines[i] != engines[j] {
      assert engines == engines[..i] + [engines[i]] + engines[i + 1..j] + [engines[j]] + engines[j + 1..];
      assert multiset(engines)[engines[i]] >= 1 + multiset([engines[j]])[engines[i]];
    }
  }

  lemma {:induction false} TakesOneMore(m: Maps, order: seq<string>, taskOf: string -> Task, ds: seq<Decision>,
                                        d: Decision)
    requires Takes(m, order, taskOf, ds) && |ds| < |order|
    requires d.task == taskOf(order[|ds|]) && RulesFor(m, d.task, d.rules)
    ensures Takes(m, order, taskOf, ds + [d])
  {
    var more := ds + [d];
    forall i | 0 <= i < |more|
      ensures more[i].task == taskOf(order[i]) && RulesFor(m, more[i].task, more[i].rules)
    {
      if i < |ds| {
        assert more[i] == ds[i];
      } else {
        assert more[i] == d;
      }
    }
  }

  lemma {:induction false} FitsOneMore(m: Maps, ds: seq<Decision>, d: Decision)
    requires Fits(m, ds) && d.engine in Schedulable(m) && Count(ds, d.engine) < Free(m, d.engine)
    ensures Fits(m, ds + [d])
    ensures forall e :: Count(ds + [d], e) == Count(ds, e) + if d.engine == e then 1 else 0
  {
    forall e ensures Count(ds + [d], e) == Count(ds, e) + if d.engine == e then 1 else 0 {
      CountOfAppend(ds, d, e);
    }
  }

  predicate Sorted(s: seq<Pending>) {
    forall i, j :: 0 <= i < j < |s| ==> s[i].remaining <= s[j].remaining
  }

  lemma {:induction false} Inserted(r: seq<Pending>, x: Pending, k: nat)
    requires Sorted(r) && k <= |r|
    requires forall j :: 0 <= j < k ==> r[j].remaining <= x.remaining
    requires forall j :: k <= j < |r| ==> x.remaining < r[j].remaining
    ensures var q := r[..k] + [x] + r[k..];
            Sorted(q) && multiset(q) == multiset(r) + multiset{x}
            && multiset(TasksOf(q)) == multiset(TasksOf(r)) + multiset{x.task}
  {
    assert r == r[..k] + r[k..] && TasksOf(r) == TasksOf(r)[..k] + TasksOf(r)[k..];
    assert TasksOf(r[..k] + [x] + r[k..]) == TasksOf(r)[..k] + [x.task] + TasksOf(r)[k..];
  }

  /** Any sorted order of the pairs; equal sizes may come in any order. */
  method Sort(s: seq<Pending>) returns (r: seq<Pending>)
    ensures Sorted(r) && multiset(r) == multiset(s) && multiset(TasksOf(r)) == multiset(TasksOf(s))
  {
    r := [];
    for i := 0 to |s|
      invariant Sorted(r) && multiset(r) == multiset(s[..i])
      invariant multiset(TasksOf(r)) == multiset(TasksOf(s)[..i])
    {
      assert s[..i + 1] == s[..i] + [s[i]] && TasksOf(s)[..i + 1] == TasksOf(s)[..i] + [s[i].task];
      r := Insert(r, s[i]);
    }
    assert s[..|s|] == s && TasksOf(s)[..|s|] == TasksOf(s);
  }

  method Insert(r: seq<Pending>, x: Pending) returns (q: seq<Pending>)
    requires Sorted(r)
    ensures Sorted(q) && multiset(q) == multiset(r) + multiset{x}
    ensures multiset(TasksOf(q)) == multiset(TasksOf(r)) + multiset{x.task}
  {
    var k := |r|;
    while k > 0 && x.remaining < r[k - 1].remaining
      invariant 0 <= k <= |r|
      invariant forall j :: k <= j < |r| ==> x.remaining < r[j].remaining
    {
      k := k - 1;
    }
    Inserted(r, x, k);
    q := r[..k] + [x] + r[k..];
  }

  /** The master's answer to one rule of a decision, for the engine's client. */
  function InstallOf(peers: Peers, client: string, rule: Rule): Result<(string, Rule)> {
    if client in peers && AllKnown(peers, rule.actions) then Success((peers[client], FillIn(peers, rule).value))
    else Failure(OutOfRange)
  }

  /** A request of the scheduler: a rule to the master, with its answer, or a task to an engine. */
  datatype Request = RuleSent(answer: Result<(string, Rule)>) | TaskSent(engine: string, task: Task)

  /** The rules of a decision for a client, and then its task. */
  function RequestsOf(peers: Peers, client: string, d: Decision): (r: seq<Request>)
    ensures |r| == |d.rules| + 1
  {
    seq(|d.rules|, i requires 0 <= i < |d.rules| => RuleSent(InstallOf(peers, client, d.rules[i])))
    + [TaskSent(d.engine, d.task)]
  }

  /** What executing the decisions sends, in order. */
  function AllRequests(peers: Peers, m: Maps, ds: seq<Decision>): seq<Request> {
    if ds == [] then []
    else
      var d := ds[|ds| - 1];
      AllRequests(peers, m, ds[..|ds| - 1]) + RequestsOf(peers, StateOf(m.engineToState, d.engine).clientName, d)
  }

  // ---- What is sent when ----------------------------------------------------------

  /** How many requests come before those of decision i. */
  function Offset(ds: seq<Decision>, i: nat): nat
    requires i <= |ds|
  {
    if i == 0 then 0 else Offset(ds, i - 1) + |ds[i - 1].rules| + 1
  }

  lemma {:induction false} OffsetOfPrefix(ds: seq<Decision>, n: nat, i: nat)
    requires i <= n <= |ds|
    ensures Offset(ds[..n], i) == Offset(ds, i)
  {
    if i > 0 { OffsetOfPrefix(ds, n, i - 1); }
  }

  lemma {:induction false} RequestCount(peers: Peers, m: Maps, ds: seq<Decision>)
    ensures |AllRequests(peers, m, ds)| == Offset(ds, |ds|)
  {
    if ds != [] {
      RequestCount(peers, m, ds[..|ds| - 1]);
      OffsetOfPrefix(ds, |ds| - 1, |ds| - 1);
    }
  }

  /** From this position on: the answers to the decision's rules, in order, and then its task. */
  predicate SentFrom(sent: seq<Request>, first: nat, peers: Peers, client: string, d: Decision) {
    var n := |d.rules|;
    && first + n < |sent|
    && (forall j :: 0 <= j < n ==> sent[first + j] == RuleSent(InstallOf(peers, client, d.rules[j])))
    && sent[first + n] == TaskSent(d.engine, d.task)
  }

  lemma {:induction false} SentLast(before: seq<Request>, peers: Peers, client: string, d: Decision)
    ensures SentFrom(before + RequestsOf(peers, client, d), |before|, peers, client, d)
  {
  }

  lemma {:induction false} StillSent(before: seq<Request>, later: seq<Request>, first: nat, peers: Peers,
                                     client: string, d: Decision)
    requires SentFrom(before, first, peers, client, d)
    ensures SentFrom(before + later, first, peers, client, d)
  {
  }

  /** Decision by decision, first its rules are sent, in order and for the client of its engine,
      and right after them its task; and nothing else is sent. */
  lemma {:induction false} RulesBeforeTask(peers: Peers, m: Maps, ds: seq<Decision>, i: nat)
    requires i < |ds|
    ensures SentFrom(AllRequests(peers, m, ds), Offset(ds, i), peers,
                     StateOf(m.engineToState, ds[i].engine).clientName, ds[i])
    ensures |AllRequests(peers, m, ds)| == Offset(ds, |ds|)
  {
    RequestCount(peers, m, ds);
    var n := |ds| - 1;
    var before, d := ds[..n], ds[n];
    var client := StateOf(m.engineToState, d.engine).clientName;
    OffsetOfPrefix(ds, n, i);
    if i < n {
      RulesBeforeTask(peers, m, before, i);
      StillSent(AllRequests(peers, m, before), RequestsOf(peers, client, d), Offset(ds, i), peers,
                StateOf(m.engineToState, ds[i].engine).clientName, ds[i]);
    } else {
      RequestCount(peers, m, before);
      SentLast(AllRequests(peers, m, before), peers, client, d);
    }
  }

  /** As the source pushes decisions, an epoch sends no rule at all, and only empty tasks to "". */
  lemma {:induction false} AsWrittenSendsEmptyTasks(peers: Peers, m: Maps, filled: seq<Decision>, i: nat)
    requires i < |filled|
    ensures var sent := AllRequests(peers, m, Pushed(filled, false));
            |sent| == |filled| && sent[i] == TaskSent("", Task("", "", ""))
  {
    var ds := Pushed(filled, false);
    RulesBeforeTask(peers, m, ds, i);
    OffsetOfDefaults(ds, i);
    OffsetOfDefaults(ds, |ds|);
  }

  lemma {:induction false} OffsetOfDefaults(ds: seq<Decision>, i: nat)
    requires i <= |ds| && forall j :: 0 <= j < |ds| ==> ds[j] == DEFAULT_DECISION
    ensures Offset(ds, i) == i
  {
    if i > 0 { OffsetOfDefaults(ds, i - 1); }
  }

  predicate AllRegistered(m: Maps, ds: seq<Decision>) {
    forall i :: 0 <= i < |ds| ==> ds[i].engine in m.engineToState
  }

  /** Charging creates an entry for every decision's engine, so executing finds it. */
  lemma {:induction false} ChargedAreRegistered(m: Maps, ds: seq<Decision>)
    ensures AllRegistered(ChargeAll(m, ds), ds)
    ensures m.engineToState.Keys <= ChargeAll(m, ds).engineToState.Keys
  {
    if ds != [] {
      ChargedAreRegistered(m, ds[..|ds| - 1]);
      assert forall i :: 0 <= i < |ds| - 1 ==> ds[..|ds| - 1][i] == ds[i];
    }
  }

  class Scheduler {
    const systemView: ServerlessSystemView

    constructor ()
      ensures fresh(systemView) && systemView.ephemeral == EPHEMERAL
      ensures systemView.Contents() == Maps(map[], map[], map[], map[], map[])
    {
      systemView := new ServerlessSystemView(EPHEMERAL, FAKE_PERSISTANT);
    }

    /** `order` is the sorted list of pending tasks and `filled` the decisions the loop body
        fills in. The lookups of a task's managers throw when they find nothing; then no
        decision comes out. */
    method Schedule(pending: seq<string>, remaining: string -> int, taskOf: string -> Task, byReference: bool)
      returns (r: Result<seq<Decision>>, ghost order: seq<string>, ghost filled: seq<Decision>)
      ensures ShortestFirst(order, pending, remaining)
      ensures r.Success? ==>
        Packed(systemView.Contents(), order, taskOf, filled) && r.value == Pushed(filled, byReference)
      ensures r.Success? <==>
        forall i :: 0 <= i < |order| && i < Slots(systemView.Contents()) ==>
          Resolvable(systemView.Contents(), taskOf(order[i]))
    {
      ghost var m := systemView.Contents();
      var sorted := SortedTasks(pending, remaining);
      var engines := systemView.GetSchedulableEngines();
      order := TasksOf(sorted);
      var ok, ds := PackEngines(engines, sorted, taskOf, m);
      filled := ds;
      if !ok {
        FittingIsBounded(m, ds);
        assert order[|ds|] == sorted[|ds|].task;
        return Failure(OutOfRange), order, filled;
      }
      PackedCount(m, order, taskOf, ds);
      r := Success(if byReference then ds else DefaultDecisions(|ds|));
    }

    method SortedTasks(pending: seq<string>, remaining: string -> int) returns (sorted: seq<Pending>)
      ensures ShortestFirst(TasksOf(sorted), pending, remaining)
    {
      var pairs := [];
      for i := 0 to |pending|
        invariant |pairs| == i && TasksOf(pairs) == pending[..i]
        invariant forall p <- pairs :: p.remaining == remaining(p.task)
      {
        pairs := pairs + [Pending(pending[i], remaining(pending[i]))];
      }
      assert pending[..|pending|] == pending;
      sorted := Sort(pairs);
      forall i | 0 <= i < |sorted| ensures sorted[i].remaining == remaining(TasksOf(sorted)[i]) {
        assert sorted[i] in multiset(pairs);
      }
    }

    /** The outer loop. `ok` is false when some lookup failed: then a slot and a task whose
        rules cannot be built were left. */
    method PackEngines(engines: seq<string>, sorted: seq<Pending>, taskOf: string -> Task, ghost m: Maps)
      returns (ok: bool, ds: seq<Decision>)
      requires m == systemView.Contents() && multiset(engines) == multiset(Schedulable(m))
      ensures Takes(m, TasksOf(sorted), taskOf, ds) && Fits(m, ds)
      ensures ok ==> LeavesNoSlot(m, TasksOf(sorted), ds)
      ensures !ok ==>
        && |ds| < |sorted| && !Resolvable(m, taskOf(sorted[|ds|].task))
        && exists e <- Schedulable(m) :: Count(ds, e) < Free(m, e)
    {
      ListedOnce(engines, Schedulable(m));
      ds := [];
      for j := 0 to |engines|
        invariant Takes(m, TasksOf(sorted), taskOf, ds) && Fits(m, ds)
        invariant |ds| < |sorted| ==> forall i :: 0 <= i < j ==> Count(ds, engines[i]) == Free(m, engines[i])
        invariant forall i :: j <= i < |engines| ==> Count(ds, engines[i]) == 0
      {
        assert engines[j] in Schedulable(m);
        ghost var before := ds;
        ok, ds := PackEngine(engines[j], sorted, taskOf, ds, m);
        if !ok { return; }
        assert forall i :: 0 <= i < |engines| && i != j ==> Count(ds, engines[i]) == Count(before, engines[i]);
      }
      forall e <- Schedulable(m) ensures |ds| < |sorted| ==> Count(ds, e) == Free(m, e) {
        assert e in engines;
      }
      ok := true;
    }

    function DefaultDecisions(n: nat): seq<Decision> {
      seq(n, i => DEFAULT_DECISION)
    }

    /** The inner loop: fills the free slots of one engine while tasks are left. */
    method PackEngine(engine: string, sorted: seq<Pending>, taskOf: string -> Task, ds: seq<Decision>, ghost m: Maps)
      returns (ok: bool, packed: seq<Decision>)
      requires m == systemView.Contents() && engine in Schedulable(m) && Count(ds, engine) == 0
      requires Takes(m, TasksOf(sorted), taskOf, ds) && Fits(m, ds)
      ensures Takes(m, TasksOf(sorted), taskOf, packed) && Fits(m, packed)
      ensures |ds| <= |packed| && forall e :: e != engine ==> Count(packed, e) == Count(ds, e)
      ensures ok && |packed| < |sorted| ==> Count(packed, engine) == Free(m, engine)
      ensures !ok ==>
        && |packed| < |sorted| && Count(packed, engine) < Free(m, engine)
        && !Resolvable(m, taskOf(sorted[|packed|].task))
    {
      var state := systemView.GetEngineState(engine);
      var available := state.value.maximumTasks - state.value.runningTasks;
      assert available == Free(m, engine);
      packed := ds;
      while available > 0 && |packed| < |sorted|
        invariant available == Free(m, engine) - Count(packed, engine) >= 0
        invariant |ds| <= |packed| && Takes(m, TasksOf(sorted), taskOf, packed) && Fits(m, packed)
        invariant forall e :: e != engine ==> Count(packed, e) == Count(ds, e)
      {
        var task := taskOf(sorted[|packed|].task);
        var rules := BuildRules(task, m);
        if rules.Failure? { return false, packed; }
        var d := Decision(engine, task, rules.value);
        TakesOneMore(m, TasksOf(sorted), taskOf, packed, d);
        FitsOneMore(m, packed, d);
        packed := packed + [d];
        available := available - 1;
      }
      ok := true;
    }

    method BuildRules(task: Task, ghost m: Maps) returns (r: Result<seq<Rule>>)
      requires m == systemView.Contents()
      ensures r.Success? <==> Resolvable(m, task)
      ensures r.Success? ==> RulesFor(m, task, r.value)
    {
      var rules := [];
      if task.inputFile != "" {
        var mgr := systemView.GetPersistentMgrForFile(task.inputFile);
        if mgr.Failure? { return Failure(OutOfRange); }
        rules := rules + [GetRule(task.inputFile, mgr.value)];
      }
      if task.outputFile != "" {
        var mgr := systemView.GetPersistentMgrForPut(task.outputFile);
        if mgr.Failure? { return Failure(OutOfRange); }
        rules := rules + [PutRule(task.outputFile, mgr.value)];
      }
      return Success(rules);
    }

    /** Sends each decision's rules to the master, whose failures are ignored, and then its
        task to its engine. It throws at the first engine without an entry, after the
        requests of the `reached` decisions before it. */
    method Execute(ds: seq<Decision>, master: StorageMaster)
      returns (ok: bool, sent: seq<Request>, ghost reached: nat)
      ensures reached <= |ds| && AllRegistered(systemView.Contents(), ds[..reached])
      ensures reached < |ds| ==> ds[reached].engine !in systemView.Contents().engineToState
      ensures ok <==> reached == |ds|
      ensures sent == AllRequests(master.peerTracker.Uris(), systemView.Contents(), ds[..reached])
    {
      ghost var m := systemView.Contents();
      sent := [];
      for i := 0 to |ds|
        invariant AllRegistered(m, ds[..i])
        invariant sent == AllRequests(master.peerTracker.Uris(), m, ds[..i])
      {
        assert ds[..i + 1][..i] == ds[..i];
        var state := systemView.GetEngineState(ds[i].engine);
        if state.Failure? { return false, sent, i; }
        var requests := ExecuteDecision(state.value.clientName, ds[i], master);
        sent := sent + requests;
      }
      ok, reached := true, |ds|;
    }

    method ExecuteDecision(client: string, d: Decision, master: StorageMaster) returns (sent: seq<Request>)
      ensures sent == RequestsOf(master.peerTracker.Uris(), client, d)
    {
      sent := [];
      for i := 0 to |d.rules|
        invariant sent == RequestsOf(master.peerTracker.Uris(), client, d)[..i]
      {
        var answer := master.InstallRule(client, d.rules[i]);
        assert answer == InstallOf(master.peerTracker.Uris(), client, d.rules[i]);
        sent := sent + [RuleSent(answer)];
      }
      sent := sent + [TaskSent(d.engine, d.task)];
    }

    /** One turn of the control loop after its view request: schedule, charge the slots,
        execute. When scheduling throws nothing is charged or sent; otherwise executing always
        finds its engines. */
    method RunEpoch(pending: seq<string>, remaining: string -> int, taskOf: string -> Task, byReference: bool,
                    master: StorageMaster)
      returns (ok: bool, sent: seq<Request>, ghost order: seq<string>, ghost filled: seq<Decision>)
      modifies systemView
      ensures pending == [] ==> ok && sent == [] && systemView.Contents() == old(systemView.Contents())
      ensures !ok ==> sent == [] && systemView.Contents() == old(systemView.Contents())
      ensures pending != [] && ok ==>
        && ShortestFirst(order, pending, remaining)
        && Packed(old(systemView.Contents()), order, taskOf, filled)
        && systemView.Contents() == ChargeAll(old(systemView.Contents()), Pushed(filled, byReference))
        && sent == AllRequests(master.peerTracker.Uris(), systemView.Contents(), Pushed(filled, byReference))
    {
      ok, sent, order, filled := true, [], [], [];
      if pending == [] { return; }
      var decisions;
      decisions, order, filled := Schedule(pending, remaining, taskOf, byReference);
      if decisions.Failure? { return false, [], order, filled; }
      var ds := decisions.value;
      systemView.TasksScheduled(ds);
      ChargedAreRegistered(old(systemView.Contents()), ds);
      ghost var reached;
      ok, sent, reached := Execute(ds, master);
      assert ds[..|ds|] == ds;
    }
  }
}

/** From a schedule to the stores: the rules the scheduler builds can be installed by the
    master and executed by the client, and do what a scheduled task needs. */
module Chain {
  import opened Messages
  import opened Interpreter
  import opened Resolution
  import RuleDatabase
  import opened SystemView
  import opened Packing
  import opened Scheduling
  import opened SchedulerRuns

  /** Every manager and every client named in a parsed reply is a peer of the master. */
  ghost predicate ReportedKnown(events: seq<Event>, peers: Peers) {
    && (forall mgr :: WasReported(events, mgr) ==> mgr in peers)
    && (forall client :: ClientWasReported(events, client) ==> client in peers)
  }

  /** A reply that names peers only keeps this when it is parsed. */
  lemma {:induction false} ReplyKeepsReportedKnown(events: seq<Event>, peers: Peers, r: GetViewReply)
    requires ReportedKnown(events, peers) && Readable(r)
    requires (forall v <- r.views :: v.name in peers) && (forall c <- r.clients :: c.name in peers)
    ensures ReportedKnown(events + [Parsed(Decode(r))], peers)
  {
    var events' := events + [Parsed(Decode(r))];
    forall mgr | WasReported(events', mgr) ensures mgr in peers {
      var i :| 0 <= i < |events'| && events'[i].Parsed? && Names(events'[i].reply, mgr);
      if i < |events| {
        assert events'[i] == events[i];
      } else {
        var j :| 0 <= j < |r.views| && Decode(r).entries[j].name == mgr;
        assert r.views[j] in r.views;
      }
    }
    forall client | ClientWasReported(events', client) ensures client in peers {
      var i :| 0 <= i < |events'| && events'[i].Parsed? && NamesClient(events'[i].reply, client);
      if i < |events| {
        assert events'[i] == events[i];
      } else {
        var j :| 0 <= j < |r.clients| && Decode(r).clients[j].name == client;
        assert r.clients[j] in r.clients;
      }
    }
  }

  lemma {:induction false} InstalledGetReads(peers: Peers, st: Stores, view: View, file: string, mgr: string)
    requires mgr in peers
    ensures var acts := FillIn(peers, GetRule(file, mgr)).value.actions;
            && acts != []
            && RunGet(st, Labels(acts, ByUri), file) == GetOutcome(st, true, Success(Read(st, peers[mgr], file)))
            && Replay(view, Labels(GetLog(acts[..|acts| - 1]), ByName)) == view
  {
    var acts := FillIn(peers, GetRule(file, mgr)).value.actions;
    assert acts == [GetAction(file, Manager(mgr, peers[mgr]))];
    assert acts[..0] == [] && Labels(acts, ByUri)[..0] == [];
  }

  lemma {:induction false} InstalledPutWrites(peers: Peers, st: Stores, view: View, file: string, mgr: string,
                                              value: string)
    requires mgr in peers
    ensures var acts := FillIn(peers, PutRule(file, mgr)).value.actions;
            && PutLoop(st, Labels(acts, ByUri), file, value) == Exec(Write(st, peers[mgr], file, value), true)
            && Replay(view, Labels(PutLog(acts), ByName)) == AddFile(view, mgr, file)
  {
    var acts := FillIn(peers, PutRule(file, mgr)).value.actions;
    assert acts == [PutAction(file, Manager(mgr, peers[mgr]))];
    var uris := Labels(acts, ByUri);
    assert acts[..0] == [] && uris[..0] == [] && PutLoop(st, uris[..0], file, value) == Exec(st, true);
    assert PutLog(acts) == [] + [acts[0]];
    var log := Labels(PutLog(acts), ByName);
    assert log[..0] == [] && Replay(view, log[..0]) == view;
  }

  /** The manager a rule of a scheduled decision talks to. */
  predicate Addresses(rule: Rule, mgr: string) {
    rule == GetRule(rule.key, mgr) || rule == PutRule(rule.key, mgr)
  }

  /** Each rule the scheduler builds addresses one manager, and some master reply named it. */
  lemma {:induction false} RulesAddressReported(ephemeral: StorageName, events: seq<Event>, t: Task, rules: seq<Rule>,
                                                i: nat)
    requires RulesFor(After(ephemeral, events), t, rules) && i < |rules|
    ensures exists mgr :: WasReported(events, mgr) && Addresses(rules[i], mgr)
  {
    var m := After(ephemeral, events).persistantKeyToMgr;
    if i == 0 && t.inputFile != "" {
      ManagersWereReported(ephemeral, events, t.inputFile);
      assert Addresses(rules[i], m[t.inputFile]);
    } else {
      var mgr :| mgr in m.Values && rules[i] == PutRule(t.outputFile, mgr);
      var key :| key in m && m[key] == mgr;
      ManagersWereReported(ephemeral, events, key);
      assert Addresses(rules[i], mgr);
    }
  }

  // ---- What a task needs ----------------------------------------------------------------

  /** The client's rules after these were installed one after another. */
  function WithRules(db: map<string, Rule>, rules: seq<Rule>): map<string, Rule> {
    if rules == [] then db
    else
      var r := rules[|rules| - 1];
      WithRules(db, rules[..|rules| - 1])[RuleDatabase.RuleKey(r.key, r.opType) := r]
  }

  /** A Get of the file at the client finds a rule, passes every assertion, returns the manager's
      value, and leaves stores and view as they are. */
  ghost predicate ServesInput(peers: Peers, st: Stores, view: View, db: map<string, Rule>, file: string, mgr: string) {
    mgr in peers &&
    match RuleDatabase.Matching(db, file, GET)
    case None => false
    case Some(rule) =>
      && rule.actions != []
      && RunGet(st, Labels(rule.actions, ByUri), file) == GetOutcome(st, true, Success(Read(st, peers[mgr], file)))
      && Replay(view, Labels(GetLog(rule.actions[..|rule.actions| - 1]), ByName)) == view
  }

  /** A Put of the file at the client finds a rule, passes every assertion, stores the value at
      the manager and nowhere else, and the view learns of it. */
  ghost predicate ServesOutput(peers: Peers, st: Stores, view: View, db: map<string, Rule>, file: string, mgr: string,
                               value: string)
  {
    mgr in peers &&
    match RuleDatabase.Matching(db, file, PUT)
    case None => false
    case Some(rule) =>
      && PutLoop(st, Labels(rule.actions, ByUri), file, value) == Exec(Write(st, peers[mgr], file, value), true)
      && Replay(view, Labels(PutLog(rule.actions), ByName)) == AddFile(view, mgr, file)
  }

  /** The task finds its input at the manager that holds it, and a manager for its output. */
  ghost predicate ServesTask(peers: Peers, st: Stores, view: View, db: map<string, Rule>, m: Maps, t: Task,
                             value: string)
  {
    && (t.inputFile != "" ==>
          && t.inputFile in m.persistantKeyToMgr
          && ServesInput(peers, st, view, db, t.inputFile, m.persistantKeyToMgr[t.inputFile]))
    && (t.outputFile != "" ==>
          exists mgr <- m.persistantKeyToMgr.Values :: ServesOutput(peers, st, view, db, t.outputFile, mgr, value))
  }

  /** All managers of the scheduler's maps are peers. */
  ghost predicate ManagersKnown(m: Maps, peers: Peers) {
    forall mgr <- m.persistantKeyToMgr.Values :: mgr in peers
  }

  lemma {:induction false} RulesAreKnown(m: Maps, peers: Peers, t: Task, rules: seq<Rule>, j: nat)
    requires RulesFor(m, t, rules) && ManagersKnown(m, peers) && j < |rules|
    ensures AllKnown(peers, rules[j].actions)
  {
    if j == 0 && t.inputFile != "" {
      assert m.persistantKeyToMgr[t.inputFile] in m.persistantKeyToMgr.Values;
    }
  }

  function Resolved(peers: Peers, rules: seq<Rule>): (r: seq<Rule>)
    requires forall j :: 0 <= j < |rules| ==> AllKnown(peers, rules[j].actions)
    ensures |r| == |rules|
  {
    seq(|rules|, j requires 0 <= j < |rules| => FillIn(peers, rules[j]).value)
  }

  lemma {:induction false} WithOneRule(db: map<string, Rule>, r: Rule)
    ensures WithRules(db, [r]) == db[RuleDatabase.RuleKey(r.key, r.opType) := r]
  {
    assert [r][..0] == [] && WithRules(db, []) == db;
  }

  lemma {:induction false} WithTwoRules(db: map<string, Rule>, r: Rule, q: Rule)
    ensures WithRules(db, [r, q])
            == db[RuleDatabase.RuleKey(r.key, r.opType) := r][RuleDatabase.RuleKey(q.key, q.opType) := q]
  {
    assert [r, q][..1] == [r];
    WithOneRule(db, r);
  }

  lemma {:induction false} InputIsServed(peers: Peers, st: Stores, view: View, db: map<string, Rule>, file: string,
                                         mgr: string)
    requires mgr in peers
    requires RuleDatabase.Matching(db, file, GET) == Some(FillIn(peers, GetRule(file, mgr)).value)
    ensures ServesInput(peers, st, view, db, file, mgr)
  {
    InstalledGetReads(peers, st, view, file, mgr);
  }

  lemma {:induction false} OutputIsServed(peers: Peers, st: Stores, view: View, db: map<string, Rule>, file: string,
                                          mgr: string, value: string)
    requires mgr in peers
    requires RuleDatabase.Matching(db, file, PUT) == Some(FillIn(peers, PutRule(file, mgr)).value)
    ensures ServesOutput(peers, st, view, db, file, mgr, value)
  {
    InstalledPutWrites(peers, st, view, file, mgr, value);
  }

  /** The rules of an input and of an output do not hide each other. */
  lemma {:induction false} BothAreFound(db: map<string, Rule>, r: Rule, q: Rule)
    requires r.opType == GET && q.opType == PUT
    ensures RuleDatabase.Matching(WithRules(db, [r, q]), r.key, GET) == Some(r)
    ensures RuleDatabase.Matching(WithRules(db, [r, q]), q.key, PUT) == Some(q)
  {
    WithTwoRules(db, r, q);
    if RuleDatabase.RuleKey(r.key, GET) == RuleDatabase.RuleKey(q.key, PUT) {
      RuleDatabase.RuleKeyInjective(r.key, GET, q.key, PUT);
    }
  }

  lemma {:induction false} RulesServeTask(peers: Peers, st: Stores, view: View, db: map<string, Rule>, m: Maps, t: Task,
                                          rules: seq<Rule>, value: string)
    requires RulesFor(m, t, rules) && ManagersKnown(m, peers)
    requires forall j :: 0 <= j < |rules| ==> AllKnown(peers, rules[j].actions)
    ensures ServesTask(peers, st, view, WithRules(db, Resolved(peers, rules)), m, t, value)
  {
    var installed := Resolved(peers, rules);
    var db' := WithRules(db, installed);
    if t.inputFile != "" {
      assert m.persistantKeyToMgr[t.inputFile] in m.persistantKeyToMgr.Values;
      if t.outputFile != "" {
        assert installed == [installed[0], installed[1]];
        BothAreFound(db, installed[0], installed[1]);
      } else {
        assert installed == [installed[0]];
        WithOneRule(db, installed[0]);
      }
      InputIsServed(peers, st, view, db', t.inputFile, m.persistantKeyToMgr[t.inputFile]);
    }
    if t.outputFile != "" {
      var mgr :| mgr in m.persistantKeyToMgr.Values && rules[|rules| - 1] == PutRule(t.outputFile, mgr);
      if t.inputFile == "" {
        assert installed == [installed[0]];
        WithOneRule(db, installed[0]);
      }
      OutputIsServed(peers, st, view, db', t.outputFile, mgr, value);
    }
  }

  /** The engine of a packed decision has a client, and some reply named it. */
  lemma {:induction false} ClientOfDecisionIsKnown(ephemeral: StorageName, events: seq<Event>, ds: seq<Decision>,
                                                   i: nat,
                                                   peers: Peers)
    requires Fits(After(ephemeral, events), ds) && i < |ds| && ReportedKnown(events, peers)
    ensures StateOf(After(ephemeral, events).engineToState, ds[i].engine).clientName in peers
  {
    ClientsWereReported(ephemeral, events, ds[i].engine);
  }

  lemma {:induction false} ReportedManagersKnown(ephemeral: StorageName, events: seq<Event>, peers: Peers)
    requires ReportedKnown(events, peers)
    ensures ManagersKnown(After(ephemeral, events), peers)
  {
    var m := After(ephemeral, events).persistantKeyToMgr;
    forall mgr <- m.Values ensures mgr in peers {
      var key :| key in m && m[key] == mgr;
      ManagersWereReported(ephemeral, events, key);
    }
  }

  /** The requests are rules that the master sent to one client, in order. */
  predicate SentTo(requests: seq<Request>, uri: string) {
    forall j :: 0 <= j < |requests| ==>
      requests[j].RuleSent? && requests[j].answer.Success? && requests[j].answer.value.0 == uri
  }

  function RulesSent(requests: seq<Request>, uri: string): seq<Rule>
    requires SentTo(requests, uri)
  {
    seq(|requests|, j requires 0 <= j < |requests| => requests[j].answer.value.1)
  }

  /** A decision's rules, as the master answers them, serve its task. */
  lemma {:induction false} DecisionIsServed(ephemeral: StorageName, events: seq<Event>, ds: seq<Decision>, i: nat,
                                            requests: seq<Request>, peers: Peers, st: Stores, view: View,
                                            db: map<string, Rule>, value: string)
    requires i < |ds| && Fits(After(ephemeral, events), ds) && |requests| == |ds[i].rules|
    requires RulesFor(After(ephemeral, events), ds[i].task, ds[i].rules)
    requires var client := StateOf(After(ephemeral, events).engineToState, ds[i].engine).clientName;
             forall j :: 0 <= j < |requests| ==> requests[j] == RuleSent(InstallOf(peers, client, ds[i].rules[j]))
    requires ReportedKnown(events, peers)
    ensures var m := After(ephemeral, events);
            var client := StateOf(m.engineToState, ds[i].engine).clientName;
            Serve(requests, peers, client, st, view, db, m, ds[i].task, value)
  {
    var m, rules := After(ephemeral, events), ds[i].rules;
    var client := StateOf(m.engineToState, ds[i].engine).clientName;
    ClientOfDecisionIsKnown(ephemeral, events, ds, i, peers);
    ReportedManagersKnown(ephemeral, events, peers);
    forall j | 0 <= j < |rules| ensures AllKnown(peers, rules[j].actions) {
      RulesAreKnown(m, peers, ds[i].task, rules, j);
    }
    assert SentTo(requests, peers[client]);
    assert RulesSent(requests, peers[client]) == Resolved(peers, rules);
    RulesServeTask(peers, st, view, db, m, ds[i].task, rules, value);
  }

  lemma {:induction false} ChargingKeepsClients(m: Maps, ds: seq<Decision>, engine: string)
    ensures StateOf(ChargeAll(m, ds).engineToState, engine).clientName == StateOf(m.engineToState, engine).clientName
  {
    ChargeAddsCounts(m, ds, engine);
  }

  /** Where the requests of a decision are. */
  lemma {:induction false} RequestsOfDecision(peers: Peers, m: Maps, ds: seq<Decision>, i: nat)
    returns (first: nat, last: nat)
    requires i < |ds|
    ensures var sent := AllRequests(peers, ChargeAll(m, ds), ds);
            var client := StateOf(m.engineToState, ds[i].engine).clientName;
            && first <= last < |sent| && sent[last] == TaskSent(ds[i].engine, ds[i].task)
            && |sent[first..last]| == |ds[i].rules|
            && forall j :: 0 <= j < |ds[i].rules| ==>
                 sent[first..last][j] == RuleSent(InstallOf(peers, client, ds[i].rules[j]))
  {
    first := Offset(ds, i);
    last := first + |ds[i].rules|;
    RulesBeforeTask(peers, ChargeAll(m, ds), ds, i);
    ChargingKeepsClients(m, ds, ds[i].engine);
  }

  /** The rules of requests, all answered and sent to the client, serve the task. */
  ghost predicate Serve(requests: seq<Request>, peers: Peers, client: string, st: Stores, view: View,
                        db: map<string, Rule>, m: Maps, t: Task, value: string)
  {
    && client in peers && SentTo(requests, peers[client])
    && ServesTask(peers, st, view, WithRules(db, RulesSent(requests, peers[client])), m, t, value)
  }

  /** The whole chain, for an epoch with decisions read by reference, in any run whose replies
      named peers, and any state of stores, view and client. For every scheduled task the
      requests hold its rules, all answered and sent to its engine's client, and right after
      them the task itself; once the client has the rules, it serves the task's input from
      the manager that holds it and the task's output to some persistent manager. */
  lemma {:induction false} EpochServesTasks(ephemeral: StorageName, events: seq<Event>, order: seq<string>,
                                            taskOf: string -> Task, filled: seq<Decision>, i: nat,
                                            peers: Peers, st: Stores, view: View, db: map<string, Rule>, value: string)
    requires Packed(After(ephemeral, events), order, taskOf, filled) && i < |filled|
    requires ReportedKnown(events, peers)
    ensures var m, ds := After(ephemeral, events), Pushed(filled, true);
            var sent := AllRequests(peers, ChargeAll(m, ds), ds);
            var client := StateOf(m.engineToState, filled[i].engine).clientName;
            exists first, last :: 0 <= first <= last < |sent|
              && sent[last] == TaskSent(filled[i].engine, taskOf(order[i]))
              && Serve(sent[first..last], peers, client, st, view, db, m, taskOf(order[i]), value)
  {
    var m, ds := After(ephemeral, events), Pushed(filled, true);
    var sent := AllRequests(peers, ChargeAll(m, ds), ds);
    var first, last := RequestsOfDecision(peers, m, ds, i);
    DecisionIsServed(ephemeral, events, ds, i, sent[first..last], peers, st, view, db, value);
  }

  // ---- The master's own replies ------------------------------------------------------

  /** Replies as the master's GetView makes them list no client. */
  predicate NoClientListed(events: seq<Event>) {
    forall i :: 0 <= i < |events| && events[i].Parsed? ==> events[i].reply.clients == []
  }

  lemma {:induction false} NoClientReported(events: seq<Event>, engine: string)
    requires NoClientListed(events)
    ensures !ClientReported(events, engine)
  {
    if events != [] { NoClientReported(events[..|events| - 1], engine); }
  }

  /** On the master's own replies no engine ever becomes schedulable, so no task is ever
      scheduled. */
  lemma {:induction false} MasterRepliesScheduleNothing(ephemeral: StorageName, events: seq<Event>, order: seq<string>,
                                                        taskOf: string -> Task, ds: seq<Decision>)
    requires IsRun(ephemeral, events) && NoClientListed(events)
    requires Packed(After(ephemeral, events), order, taskOf, ds)
    ensures Schedulable(After(ephemeral, events)) == {} && ds == []
  {
    forall engine ensures engine !in Schedulable(After(ephemeral, events)) {
      NoClientReported(events, engine);
      SchedulableIff(ephemeral, events, engine);
    }
    FittingIsBounded(After(ephemeral, events), ds);
    SumOfZeros(FreeSlots(After(ephemeral, events)));
  }
}

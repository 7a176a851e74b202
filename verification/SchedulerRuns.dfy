/** The scheduler's view over whole runs: what its maps say, told from the history of
    introductions, replies and epochs alone. */
module SchedulerRuns {
  import opened Messages
  import opened SystemView
  import opened ReplyParsing
  import opened Packing
  import opened Scheduling

  datatype Event =
    | Introduced(hostname: string, execUri: string, clientUri: string, maximumTasks: int)
    | Parsed(reply: Decoded)
    | Epoch(decisions: seq<Decision>)

  function Step(m: Maps, ephemeral: StorageName, e: Event): Maps {
    match e
    case Introduced(hostname, execUri, clientUri, maximumTasks) =>
      AddEngine(m, hostname, execUri, clientUri, maximumTasks)
    case Parsed(reply) => Parse(m, ephemeral, reply)
    case Epoch(ds) => ChargeAll(m, ds)
  }

  function After(ephemeral: StorageName, events: seq<Event>): Maps {
    if events == [] then Maps(map[], map[], map[], map[], map[])
    else Step(After(ephemeral, events[..|events| - 1]), ephemeral, events[|events| - 1])
  }

  /** An engine's URI has a colon; manager names have two; an epoch's decisions come out
      of Schedule, read either way. */
  ghost predicate Legal(m: Maps, e: Event) {
    match e
    case Introduced(_, execUri, _, _) => execUri != ""
    case Parsed(reply) => forall i :: 0 <= i < |reply.entries| ==> reply.entries[i].name != ""
    case Epoch(ds) => exists filled, byReference :: Fits(m, filled) && ds == Pushed(filled, byReference)
  }

  ghost predicate IsRun(ephemeral: StorageName, events: seq<Event>) {
    forall i :: 0 <= i < |events| ==> Legal(After(ephemeral, events[..i]), events[i])
  }

  // ---- The history ------------------------------------------------------------------

  /** The engine introduced last on a host, or "". */
  function RegisteredEngine(events: seq<Event>, hostname: string): string {
    if events == [] then ""
    else
      var e := events[|events| - 1];
      if e.Introduced? && e.hostname == hostname then e.execUri
      else RegisteredEngine(events[..|events| - 1], hostname)
  }

  predicate WasIntroduced(events: seq<Event>, engine: string) {
    exists i :: 0 <= i < |events| && events[i].Introduced? && events[i].execUri == engine
  }

  /** The slots of the engine's last introduction. */
  function SlotsOf(events: seq<Event>, engine: string): int {
    if events == [] then -1
    else
      var e := events[|events| - 1];
      if e.Introduced? && e.execUri == engine then e.maximumTasks
      else SlotsOf(events[..|events| - 1], engine)
  }

  /** Decisions issued to the engine since its last introduction. */
  function Issued(events: seq<Event>, engine: string): nat {
    if events == [] then 0
    else
      var before := events[..|events| - 1];
      match events[|events| - 1]
      case Introduced(_, execUri, _, _) => if execUri == engine then 0 else Issued(before, engine)
      case Parsed(_) => Issued(before, engine)
      case Epoch(ds) => Issued(before, engine) + Count(ds, engine)
  }

  /** Since its last introduction a reply reported an ephemeral manager on a host whose
      registered engine it was. */
  ghost predicate EphemeralReported(ephemeral: StorageName, events: seq<Event>, engine: string) {
    events != [] &&
    var before := events[..|events| - 1];
    match events[|events| - 1]
    case Introduced(_, execUri, _, _) => execUri != engine && EphemeralReported(ephemeral, before, engine)
    case Parsed(reply) =>
      || EphemeralReported(ephemeral, before, engine)
      || exists i :: 0 <= i < |reply.entries| && reply.entries[i].storage == Some(ephemeral)
                     && RegisteredEngine(before, reply.entries[i].hostname) == engine
    case Epoch(_) => EphemeralReported(ephemeral, before, engine)
  }

  /** And a client: the last one reported on such a host since then has a name. */
  ghost predicate ClientReported(events: seq<Event>, engine: string) {
    events != [] &&
    var before := events[..|events| - 1];
    match events[|events| - 1]
    case Introduced(_, execUri, _, _) => execUri != engine && ClientReported(before, engine)
    case Parsed(reply) => ClientAfterReply(before, reply.clients, engine, ClientReported(before, engine))
    case Epoch(_) => ClientReported(before, engine)
  }

  /** The last of the client entries for the engine decides; without one, what was
      reported before stands. */
  predicate ClientAfterReply(before: seq<Event>, clients: seq<ClientEntry>, engine: string, reported: bool) {
    if clients == [] then reported
    else
      var c := clients[|clients| - 1];
      if RegisteredEngine(before, c.hostname) == engine then c.name != ""
      else ClientAfterReply(before, clients[..|clients| - 1], engine, reported)
  }

  // ---- The maps tell the history -------------------------------------------------------

  lemma {:induction false} PrefixIsRun(ephemeral: StorageName, events: seq<Event>)
    requires events != [] && IsRun(ephemeral, events)
    ensures IsRun(ephemeral, events[..|events| - 1])
    ensures Legal(After(ephemeral, events[..|events| - 1]), events[|events| - 1])
  {
    var before := events[..|events| - 1];
    assert forall i :: 0 <= i < |before| ==> before[..i] == events[..i] && before[i] == events[i];
  }

  lemma {:induction false} HostsTellRegistered(ephemeral: StorageName, events: seq<Event>, hostname: string)
    ensures EngineOf(After(ephemeral, events).hostnameToEngine, hostname) == RegisteredEngine(events, hostname)
  {
    if events != [] {
      var before, e := events[..|events| - 1], events[|events| - 1];
      HostsTellRegistered(ephemeral, before, hostname);
      var m := After(ephemeral, before);
      match e
      case Introduced(_, _, _, _) =>
      case Parsed(reply) =>
        ParseIsSummary(m, ephemeral, reply);
        RegisteredAgrees(m.hostnameToEngine, EntryHosts(reply.entries) + ClientHosts(reply.clients), hostname);
      case Epoch(ds) => ChargeKeepsHosts(m, ds);
    }
  }

  lemma {:induction false} ChargeKeepsHosts(m: Maps, ds: seq<Decision>)
    ensures ChargeAll(m, ds) == m.(engineToState := ChargeAll(m, ds).engineToState)
  {
    if ds != [] { ChargeKeepsHosts(m, ds[..|ds| - 1]); }
  }

  /** Charging only adds the counts to running tasks. */
  lemma {:induction false} ChargeAddsCounts(m: Maps, ds: seq<Decision>, engine: string)
    ensures var old', new' := StateOf(m.engineToState, engine), StateOf(ChargeAll(m, ds).engineToState, engine);
            new' == old'.(runningTasks := old'.runningTasks + Count(ds, engine))
    ensures engine in ChargeAll(m, ds).engineToState <==> engine in m.engineToState || Count(ds, engine) > 0
  {
    if ds != [] { ChargeAddsCounts(m, ds[..|ds| - 1], engine); }
  }

  /** Parsing only sets names: the last ones reported for the engine. */
  lemma {:induction false} ParseSetsNames(m: Maps, ephemeral: StorageName, d: Decoded, engine: string)
    ensures var old', new' := StateOf(m.engineToState, engine), StateOf(Parse(m, ephemeral, d).engineToState, engine);
            var e := EphemeralNames(m.hostnameToEngine, ephemeral, d.entries);
            var c := ClientNames(m.hostnameToEngine, d.clients);
            new' == old'.(ephemeralName := if engine in e then e[engine] else old'.ephemeralName,
                          clientName := if engine in c then c[engine] else old'.clientName)
  {
    ParseIsSummary(m, ephemeral, d);
  }

  /** What the history says of an engine's state. */
  ghost predicate Tells(ephemeral: StorageName, events: seq<Event>, engine: string, s: EngineState) {
    && s.name == (if WasIntroduced(events, engine) then engine else "")
    && s.maximumTasks == SlotsOf(events, engine)
    && s.runningTasks == Issued(events, engine)
    && (s.ephemeralName != "" <==> EphemeralReported(ephemeral, events, engine))
    && (s.clientName != "" <==> ClientReported(events, engine))
  }

  lemma {:induction false} IntroducedSnoc(events: seq<Event>, engine: string)
    requires events != []
    ensures var e := events[|events| - 1];
            WasIntroduced(events, engine) <==>
              WasIntroduced(events[..|events| - 1], engine) || (e.Introduced? && e.execUri == engine)
  {
    assert events == events[..|events| - 1] + [events[|events| - 1]];
  }

  lemma {:induction false} EphemeralNamesTell(ephemeral: StorageName, before: seq<Event>, entries: seq<Entry>,
                                              engine: string)
    requires forall i :: 0 <= i < |entries| ==> entries[i].name != ""
    ensures var e := EphemeralNames(After(ephemeral, before).hostnameToEngine, ephemeral, entries);
            && (engine in e <==> exists i :: 0 <= i < |entries| && entries[i].storage == Some(ephemeral)
                                             && RegisteredEngine(before, entries[i].hostname) == engine)
            && (engine in e ==> e[engine] != "")
  {
    if entries != [] {
      EphemeralNamesTell(ephemeral, before, entries[..|entries| - 1], engine);
      HostsTellRegistered(ephemeral, before, entries[|entries| - 1].hostname);
      assert entries == entries[..|entries| - 1] + [entries[|entries| - 1]];
    }
  }

  lemma {:induction false} ClientNamesTell(ephemeral: StorageName, before: seq<Event>, clients: seq<ClientEntry>,
                                           engine: string, name: string)
    ensures var c := ClientNames(After(ephemeral, before).hostnameToEngine, clients);
            ClientAfterReply(before, clients, engine, name != "") <==> (if engine in c then c[engine] else name) != ""
  {
    if clients != [] {
      ClientNamesTell(ephemeral, before, clients[..|clients| - 1], engine, name);
      HostsTellRegistered(ephemeral, before, clients[|clients| - 1].hostname);
    }
  }

  lemma {:induction false} ParsedTells(ephemeral: StorageName, events: seq<Event>, engine: string)
    requires events != [] && events[|events| - 1].Parsed?
    requires Legal(After(ephemeral, events[..|events| - 1]), events[|events| - 1])
    requires HistoryTold(ephemeral, events[..|events| - 1], engine)
    ensures HistoryTold(ephemeral, events, engine)
  {
    var before, reply := events[..|events| - 1], events[|events| - 1].reply;
    var m := After(ephemeral, before);
    IntroducedSnoc(events, engine);
    ParseSetsNames(m, ephemeral, reply, engine);
    EphemeralNamesTell(ephemeral, before, reply.entries, engine);
    ClientNamesTell(ephemeral, before, reply.clients, engine, StateOf(m.engineToState, engine).clientName);
  }

  lemma {:induction false} IntroducedTells(ephemeral: StorageName, events: seq<Event>, engine: string)
    requires events != [] && events[|events| - 1].Introduced?
    requires HistoryTold(ephemeral, events[..|events| - 1], engine)
    ensures HistoryTold(ephemeral, events, engine)
  {
    var before, e := events[..|events| - 1], events[|events| - 1];
    IntroducedSnoc(events, engine);
    var old' := StateOf(After(ephemeral, before).engineToState, engine);
    var new' := StateOf(After(ephemeral, events).engineToState, engine);
    assert new' == if e.execUri == engine then EngineState(engine, "", "", 0, e.maximumTasks) else old';
    assert EphemeralReported(ephemeral, events, engine)
      <==> e.execUri != engine && EphemeralReported(ephemeral, before, engine);
    assert ClientReported(events, engine) <==> e.execUri != engine && ClientReported(before, engine);
  }

  lemma {:induction false} EpochTells(ephemeral: StorageName, events: seq<Event>, engine: string)
    requires events != [] && events[|events| - 1].Epoch?
    requires HistoryTold(ephemeral, events[..|events| - 1], engine)
    ensures HistoryTold(ephemeral, events, engine)
  {
    var before, ds := events[..|events| - 1], events[|events| - 1].decisions;
    IntroducedSnoc(events, engine);
    ChargeAddsCounts(After(ephemeral, before), ds, engine);
    assert EphemeralReported(ephemeral, events, engine) <==> EphemeralReported(ephemeral, before, engine);
    assert ClientReported(events, engine) <==> ClientReported(before, engine);
  }

  ghost predicate HistoryTold(ephemeral: StorageName, events: seq<Event>, engine: string) {
    Tells(ephemeral, events, engine, StateOf(After(ephemeral, events).engineToState, engine))
  }

  /** In every run each engine's state is what the history says; in particular its name is
      its map key once introduced, and "" otherwise. */
  lemma {:induction false} StatesTellHistory(ephemeral: StorageName, events: seq<Event>, engine: string)
    requires IsRun(ephemeral, events)
    ensures HistoryTold(ephemeral, events, engine)
  {
    if events == [] {
      assert Tells(ephemeral, [], engine, NEW_ENGINE);
    } else {
      PrefixIsRun(ephemeral, events);
      StatesTellHistory(ephemeral, events[..|events| - 1], engine);
      match events[|events| - 1]
      case Introduced(_, _, _, _) => IntroducedTells(ephemeral, events, engine);
      case Parsed(_) => ParsedTells(ephemeral, events, engine);
      case Epoch(_) => EpochTells(ephemeral, events, engine);
    }
  }

  lemma {:induction false} EmptyNeverIntroduced(ephemeral: StorageName, events: seq<Event>)
    requires IsRun(ephemeral, events)
    ensures !WasIntroduced(events, "")
  {
    forall i | 0 <= i < |events| && events[i].Introduced? ensures events[i].execUri != "" {
      assert Legal(After(ephemeral, events[..i]), events[i]);
    }
  }

  /** An engine is schedulable exactly when it was introduced, its host had an ephemeral
      manager and a named client reported while it was the registered engine since then,
      and a slot is left. The "" entry of unknown hosts never is. */
  lemma {:induction false} SchedulableIff(ephemeral: StorageName, events: seq<Event>, engine: string)
    requires IsRun(ephemeral, events)
    ensures engine in Schedulable(After(ephemeral, events)) <==>
            && WasIntroduced(events, engine)
            && EphemeralReported(ephemeral, events, engine)
            && ClientReported(events, engine)
            && Issued(events, engine) < SlotsOf(events, engine)
    ensures engine in Schedulable(After(ephemeral, events)) ==>
            engine != "" && After(ephemeral, events).engineToState[engine].name == engine
  {
    StatesTellHistory(ephemeral, events, engine);
    EmptyNeverIntroduced(ephemeral, events);
  }

  // ---- Capacity -------------------------------------------------------------------------

  lemma {:induction false} DefaultsCountNothing(ds: seq<Decision>, engine: string)
    requires engine != "" && forall i :: 0 <= i < |ds| ==> ds[i] == DEFAULT_DECISION
    ensures Count(ds, engine) == 0
  {
    if ds != [] { DefaultsCountNothing(ds[..|ds| - 1], engine); }
  }

  lemma {:induction false} EpochFits(m: Maps, ds: seq<Decision>, engine: string)
    requires Legal(m, Epoch(ds)) && engine != ""
    ensures Count(ds, engine) > 0 ==> engine in Schedulable(m) && Count(ds, engine) <= Free(m, engine)
  {
    var filled, byReference :| Fits(m, filled) && ds == Pushed(filled, byReference);
    if byReference {
      CountNeedsOne(ds, engine);
    } else {
      DefaultsCountNothing(ds, engine);
    }
  }

  lemma {:induction false} CountNeedsOne(ds: seq<Decision>, engine: string)
    ensures Count(ds, engine) > 0 ==> exists i :: 0 <= i < |ds| && ds[i].engine == engine
  {
    if ds != [] {
      CountNeedsOne(ds[..|ds| - 1], engine);
      assert ds == ds[..|ds| - 1] + [ds[|ds| - 1]];
    }
  }

  /** Capacity: an introduced engine's running tasks are the decisions issued to it since
      its last introduction, and never more than its slots. As nothing ever frees a slot,
      this bounds all the work an engine gets between two introductions. */
  lemma {:induction false} CapacityHolds(ephemeral: StorageName, events: seq<Event>, engine: string)
    requires IsRun(ephemeral, events) && WasIntroduced(events, engine)
    ensures engine in After(ephemeral, events).engineToState
    ensures var s := After(ephemeral, events).engineToState[engine];
            && s.runningTasks == Issued(events, engine)
            && s.maximumTasks == SlotsOf(events, engine)
            && s.runningTasks <= (if s.maximumTasks < 0 then 0 else s.maximumTasks)
  {
    StatesTellHistory(ephemeral, events, engine);
    EmptyNeverIntroduced(ephemeral, events);
    IssuedIsBounded(ephemeral, events, engine);
    assert StateOf(After(ephemeral, events).engineToState, engine).name == engine;
  }

  lemma {:induction false} IssuedIsBounded(ephemeral: StorageName, events: seq<Event>, engine: string)
    requires IsRun(ephemeral, events) && engine != ""
    ensures Issued(events, engine) <= if SlotsOf(events, engine) < 0 then 0 else SlotsOf(events, engine)
  {
    if events != [] {
      var before, e := events[..|events| - 1], events[|events| - 1];
      PrefixIsRun(ephemeral, events);
      IssuedIsBounded(ephemeral, before, engine);
      if e.Epoch? {
        EpochFits(After(ephemeral, before), e.decisions, engine);
        StatesTellHistory(ephemeral, before, engine);
      }
    }
  }

  /** As the source pushes them, decisions are charged to the "" entry only: every named
      engine keeps its state, so the next epoch finds the same slots free. */
  lemma {:induction false} AsWrittenNoEngineIsCharged(m: Maps, filled: seq<Decision>, engine: string)
    requires engine != ""
    ensures var m' := ChargeAll(m, Pushed(filled, false));
            && (engine in m'.engineToState <==> engine in m.engineToState)
            && StateOf(m'.engineToState, engine) == StateOf(m.engineToState, engine)
            && StateOf(m'.engineToState, "").runningTasks == StateOf(m.engineToState, "").runningTasks + |filled|
  {
    var ds := Pushed(filled, false);
    DefaultsCountNothing(ds, engine);
    ChargeAddsCounts(m, ds, engine);
    ChargeAddsCounts(m, ds, "");
    DefaultsCountAll(ds);
  }

  lemma {:induction false} DefaultsCountAll(ds: seq<Decision>)
    requires forall i :: 0 <= i < |ds| ==> ds[i] == DEFAULT_DECISION
    ensures Count(ds, "") == |ds|
  {
    if ds != [] { DefaultsCountAll(ds[..|ds| - 1]); }
  }

  /** A schedule that leaves tasks over fills every engine: after charging, none is schedulable. */
  lemma {:induction false} LeftoverFillsEngines(m: Maps, order: seq<string>, taskOf: string -> Task, ds: seq<Decision>)
    requires Packed(m, order, taskOf, ds) && |ds| < |order|
    ensures Schedulable(ChargeAll(m, ds)) == {}
  {
    forall e ensures e !in Schedulable(ChargeAll(m, ds)) {
      ChargeAddsCounts(m, ds, e);
      CountNeedsOne(ds, e);
    }
  }

  // ---- Where persistent managers come from ------------------------------------------------

  /** The manager was named by an entry of some parsed reply. */
  predicate WasReported(events: seq<Event>, mgr: string) {
    exists i :: 0 <= i < |events| && events[i].Parsed? && Names(events[i].reply, mgr)
  }

  predicate Names(reply: Decoded, mgr: string) {
    exists j :: 0 <= j < |reply.entries| && reply.entries[j].name == mgr
  }

  lemma {:induction false} ManagersWereReported(ephemeral: StorageName, events: seq<Event>, key: string)
    ensures var m := After(ephemeral, events).persistantKeyToMgr;
            key in m ==> WasReported(events, m[key])
  {
    if events != [] {
      var before, e := events[..|events| - 1], events[|events| - 1];
      var m, m' := After(ephemeral, before), After(ephemeral, events);
      ManagersWereReported(ephemeral, before, key);
      assert forall mgr :: WasReported(before, mgr) ==> WasReported(events, mgr) by {
        assert forall i :: 0 <= i < |before| ==> before[i] == events[i];
      }
      if e.Epoch? {
        ChargeKeepsHosts(m, e.decisions);
      } else if e.Parsed? && key in m'.persistantKeyToMgr {
        ParseIsSummary(m, ephemeral, e.reply);
        if key in PersistantManagers(ephemeral, e.reply.entries) {
          ListedByEntry(ephemeral, e.reply.entries, key);
          assert Names(events[|events| - 1].reply, m'.persistantKeyToMgr[key]);
        }
      }
    }
  }

  /** Entry j of the reply at event i is of a persistent manager and lists the key. */
  ghost predicate ListedAt(ephemeral: StorageName, events: seq<Event>, i: int, j: int, key: string) {
    && 0 <= i < |events| && events[i].Parsed? && 0 <= j < |events[i].reply.entries|
    && PersistantListing(ephemeral, events[i].reply.entries[j], key)
  }

  /** The listing is the latest one of the history. */
  ghost predicate LastListedAt(ephemeral: StorageName, events: seq<Event>, i: int, j: int, key: string) {
    && ListedAt(ephemeral, events, i, j, key)
    && forall i', j' :: i' > i || (i' == i && j' > j) ==> !ListedAt(ephemeral, events, i', j', key)
  }

  lemma {:induction false} OnlyParsingLists(ephemeral: StorageName, m: Maps, e: Event)
    ensures !e.Parsed? ==> Step(m, ephemeral, e).persistantKeyToMgr == m.persistantKeyToMgr
    ensures e.Parsed? ==> Step(m, ephemeral, e).persistantKeyToMgr
                          == m.persistantKeyToMgr + PersistantManagers(ephemeral, e.reply.entries)
  {
    if e.Epoch? { ChargeKeepsHosts(m, e.decisions); }
    if e.Parsed? { ParseIsSummary(m, ephemeral, e.reply); }
  }

  lemma {:induction false} ListedBefore(ephemeral: StorageName, events: seq<Event>, i: int, j: int, key: string)
    requires events != [] && i < |events| - 1
    ensures ListedAt(ephemeral, events, i, j, key) <==> ListedAt(ephemeral, events[..|events| - 1], i, j, key)
  {
  }

  /** A key has a persistent manager exactly when some reply listed it. */
  lemma {:induction false} PersistantIffListed(ephemeral: StorageName, events: seq<Event>, key: string)
    ensures key in After(ephemeral, events).persistantKeyToMgr <==>
              exists i, j :: ListedAt(ephemeral, events, i, j, key)
  {
    if events != [] {
      var n := |events| - 1;
      var before, e := events[..n], events[n];
      PersistantIffListed(ephemeral, before, key);
      OnlyParsingLists(ephemeral, After(ephemeral, before), e);
      if e.Parsed? { LastListingDecidesManager(ephemeral, e.reply.entries, key); }
      forall i, j | ListedAt(ephemeral, before, i, j, key) ensures ListedAt(ephemeral, events, i, j, key) {
        ListedBefore(ephemeral, events, i, j, key);
      }
      forall i, j | ListedAt(ephemeral, events, i, j, key) && i < n ensures ListedAt(ephemeral, before, i, j, key) {
        ListedBefore(ephemeral, events, i, j, key);
      }
      if e.Parsed? && key in PersistantManagers(ephemeral, e.reply.entries) {
        var j :| 0 <= j < |e.reply.entries| && PersistantListing(ephemeral, e.reply.entries[j], key);
        assert ListedAt(ephemeral, events, n, j, key);
      }
    }
  }

  /** And then it is the manager of the latest listing. */
  lemma {:induction false} LastListerIsPersistant(ephemeral: StorageName, events: seq<Event>, i: int, j: int,
                                                  key: string)
    requires LastListedAt(ephemeral, events, i, j, key)
    ensures var m := After(ephemeral, events).persistantKeyToMgr;
            key in m && m[key] == events[i].reply.entries[j].name
  {
    var n := |events| - 1;
    var before, e := events[..n], events[n];
    OnlyParsingLists(ephemeral, After(ephemeral, before), e);
    if e.Parsed? { LastListingDecidesManager(ephemeral, e.reply.entries, key); }
    if i == n {
      forall j' | j < j' < |e.reply.entries| ensures !PersistantListing(ephemeral, e.reply.entries[j'], key) {
        assert !ListedAt(ephemeral, events, n, j', key);
      }
    } else {
      forall i', j' | i' > i || (i' == i && j' > j) ensures !ListedAt(ephemeral, before, i', j', key) {
        assert !ListedAt(ephemeral, events, i', j', key);
      }
      LastListerIsPersistant(ephemeral, before, i, j, key);
      if e.Parsed? {
        forall j' | 0 <= j' < |e.reply.entries| ensures !PersistantListing(ephemeral, e.reply.entries[j'], key) {
          assert !ListedAt(ephemeral, events, n, j', key);
        }
      }
    }
  }

  /** The rules of a task can be built exactly when its input was listed, and, for an output,
      any key at all. */
  lemma {:induction false} ResolvableIffListed(ephemeral: StorageName, events: seq<Event>, t: Task)
    ensures Resolvable(After(ephemeral, events), t) <==>
            && (t.inputFile != "" ==> exists i, j :: ListedAt(ephemeral, events, i, j, t.inputFile))
            && (t.outputFile != "" ==> exists key, i, j :: ListedAt(ephemeral, events, i, j, key))
  {
    var m := After(ephemeral, events).persistantKeyToMgr;
    PersistantIffListed(ephemeral, events, t.inputFile);
    forall key, i, j | ListedAt(ephemeral, events, i, j, key) ensures m != map[] {
      PersistantIffListed(ephemeral, events, key);
    }
    if m != map[] {
      var key :| key in m;
      PersistantIffListed(ephemeral, events, key);
      var i, j :| ListedAt(ephemeral, events, i, j, key);
    }
  }

  /** The client was named by an entry of some parsed reply. */
  predicate ClientWasReported(events: seq<Event>, client: string) {
    exists i :: 0 <= i < |events| && events[i].Parsed? && NamesClient(events[i].reply, client)
  }

  predicate NamesClient(reply: Decoded, client: string) {
    exists j :: 0 <= j < |reply.clients| && reply.clients[j].name == client
  }

  lemma {:induction false} ClientNameIsNamed(hosts: map<string, string>, clients: seq<ClientEntry>, engine: string)
    requires engine in ClientNames(hosts, clients)
    ensures exists j :: 0 <= j < |clients| && clients[j].name == ClientNames(hosts, clients)[engine]
  {
    var before, c := clients[..|clients| - 1], clients[|clients| - 1];
    if EngineOf(hosts, c.hostname) == engine {
      assert clients[|clients| - 1].name == ClientNames(hosts, clients)[engine];
    } else {
      ClientNameIsNamed(hosts, before, engine);
      var j :| 0 <= j < |before| && before[j].name == ClientNames(hosts, before)[engine];
      assert clients[j] == before[j];
    }
  }

  /** An engine's client, once set, was named by some reply. */
  lemma {:induction false} ClientsWereReported(ephemeral: StorageName, events: seq<Event>, engine: string)
    ensures var client := StateOf(After(ephemeral, events).engineToState, engine).clientName;
            client != "" ==> ClientWasReported(events, client)
  {
    if events != [] {
      var before, e := events[..|events| - 1], events[|events| - 1];
      var m := After(ephemeral, before);
      ClientsWereReported(ephemeral, before, engine);
      assert forall client :: ClientWasReported(before, client) ==> ClientWasReported(events, client) by {
        assert forall i :: 0 <= i < |before| ==> before[i] == events[i];
      }
      match e
      case Introduced(_, _, _, _) =>
      case Epoch(ds) => ChargeAddsCounts(m, ds, engine);
      case Parsed(reply) =>
        ParseSetsNames(m, ephemeral, reply, engine);
        var names := ClientNames(m.hostnameToEngine, reply.clients);
        if engine in names {
          ClientNameIsNamed(m.hostnameToEngine, reply.clients, engine);
          assert NamesClient(events[|events| - 1].reply, names[engine]);
        }
    }
  }

  lemma {:induction false} ListedByEntry(ephemeral: StorageName, entries: seq<Entry>, key: string)
    requires key in PersistantManagers(ephemeral, entries)
    ensures exists j :: 0 <= j < |entries| && entries[j].name == PersistantManagers(ephemeral, entries)[key]
  {
    if entries != [] {
      var before, v := entries[..|entries| - 1], entries[|entries| - 1];
      if v.storage != Some(ephemeral) && key in v.keys {
        assert entries[|entries| - 1].name == PersistantManagers(ephemeral, entries)[key];
      } else {
        ListedByEntry(ephemeral, before, key);
        var j :| 0 <= j < |before| && before[j].name == PersistantManagers(ephemeral, before)[key];
        assert entries[j] == before[j];
      }
    }
  }
}

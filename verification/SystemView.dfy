/** The scheduler's view of the serverless system, folded from introductions of engines,
    the master's view replies and its own decisions. */
module SystemView {
  import opened Messages
  import opened Naming

  datatype EngineState = EngineState(
    name: string, clientName: string, ephemeralName: string, runningTasks: int, maximumTasks: int)
  {
    predicate AvailableToSchedule() {
      runningTasks < maximumTasks && name != "" && clientName != "" && ephemeralName != ""
    }
  }

  const NEW_ENGINE := EngineState("", "", "", 0, -1)

  datatype Decision = Decision(engine: string, task: Task, rules: seq<Rule>)

  /** The five maps. */
  datatype Maps = Maps(
    clientUriToEngine: map<string, string>,
    engineToState: map<string, EngineState>,
    hostnameToEngine: map<string, string>,
    mgrToKeys: map<string, seq<string>>,
    persistantKeyToMgr: map<string, string>)

  /** What operator[] reads: a missing entry is the default one. */
  function StateOf(states: map<string, EngineState>, engine: string): EngineState {
    if engine in states then states[engine] else NEW_ENGINE
  }

  function EngineOf(hosts: map<string, string>, hostname: string): string {
    if hostname in hosts then hosts[hostname] else ""
  }

  // ---- The steps ------------------------------------------------------------------

  function AddEngine(m: Maps, hostname: string, execUri: string, clientUri: string, maximumTasks: int): Maps {
    m.(hostnameToEngine := m.hostnameToEngine[hostname := execUri],
       engineToState := m.engineToState[execUri := EngineState(execUri, "", "", 0, maximumTasks)],
       clientUriToEngine := m.clientUriToEngine[clientUri := execUri])
  }

  /** A manager view with its URI and name parsed; `storage` is None when the name holds
      no storage name. */
  datatype Entry = Entry(hostname: string, storage: Option<StorageName>, name: string, keys: seq<string>)

  datatype ClientEntry = ClientEntry(hostname: string, name: string)

  datatype Decoded = Decoded(entries: seq<Entry>, clients: seq<ClientEntry>)

  predicate ReadableView(v: ManagerView) {
    ':' in v.uri && TwoColons(v.name)
  }

  /** Replies on which parsing names and URIs is defined. */
  predicate Readable(r: GetViewReply) {
    && (forall i :: 0 <= i < |r.views| ==> ReadableView(r.views[i]))
    && (forall i :: 0 <= i < |r.clients| ==> ':' in r.clients[i].uri)
  }

  function EntryOf(v: ManagerView): (e: Entry)
    requires ReadableView(v)
    ensures e.name == v.name && e.keys == v.keys && e.name != ""
  {
    Entry(UriToHostname(v.uri), ParseStorageName(NameToStorageName(v.name)), v.name, v.keys)
  }

  function Decode(r: GetViewReply): (d: Decoded)
    requires Readable(r)
    ensures |d.entries| == |r.views| && |d.clients| == |r.clients|
  {
    Decoded(seq(|r.views|, i requires 0 <= i < |r.views| => EntryOf(r.views[i])),
            seq(|r.clients|, i requires 0 <= i < |r.clients| =>
              ClientEntry(UriToHostname(r.clients[i].uri), r.clients[i].name)))
  }

  lemma {:induction false} DecodedParts(r: GetViewReply)
    requires Readable(r)
    ensures forall i :: 0 <= i < |r.views| ==> ReadableView(r.views[i]) && Decode(r).entries[i] == EntryOf(r.views[i])
    ensures forall i :: 0 <= i < |r.clients| ==>
      ':' in r.clients[i].uri && Decode(r).clients[i] == ClientEntry(UriToHostname(r.clients[i].uri), r.clients[i].name)
  {
  }

  /** Every name holds a storage name, so no assertion of the parse fails. */
  predicate NamesStorages(entries: seq<Entry>) {
    forall i :: 0 <= i < |entries| ==> entries[i].storage.Some?
  }

  /** The body of the loop over manager views. */
  function ParseEntry(m: Maps, ephemeral: StorageName, v: Entry): Maps {
    var engine := EngineOf(m.hostnameToEngine, v.hostname);
    var m1 := m.(hostnameToEngine := m.hostnameToEngine[v.hostname := engine]);
    var m2 :=
      if v.storage == Some(ephemeral) then
        m1.(engineToState := m1.engineToState[engine := StateOf(m1.engineToState, engine).(ephemeralName := v.name)])
      else
        m1.(persistantKeyToMgr := m1.persistantKeyToMgr + map k | k in v.keys :: v.name);
    m2.(mgrToKeys := m2.mgrToKeys[v.name := v.keys])
  }

  function ParseEntries(m: Maps, ephemeral: StorageName, entries: seq<Entry>): Maps {
    if entries == [] then m
    else ParseEntry(ParseEntries(m, ephemeral, entries[..|entries| - 1]), ephemeral, entries[|entries| - 1])
  }

  lemma {:induction false} ParseOneMore(m: Maps, ephemeral: StorageName, entries: seq<Entry>, i: nat)
    requires i < |entries| && NamesStorages(entries[..i]) && entries[i].storage.Some?
    ensures NamesStorages(entries[..i + 1])
    ensures ParseEntries(m, ephemeral, entries[..i + 1])
            == ParseEntry(ParseEntries(m, ephemeral, entries[..i]), ephemeral, entries[i])
  {
    assert entries[..i + 1][..i] == entries[..i];
  }

  /** The body of the loop over client views. */
  function ParseClient(m: Maps, c: ClientEntry): Maps {
    var engine := EngineOf(m.hostnameToEngine, c.hostname);
    m.(hostnameToEngine := m.hostnameToEngine[c.hostname := engine],
       engineToState := m.engineToState[engine := StateOf(m.engineToState, engine).(clientName := c.name)])
  }

  function ParseClients(m: Maps, clients: seq<ClientEntry>): Maps {
    if clients == [] then m
    else ParseClient(ParseClients(m, clients[..|clients| - 1]), clients[|clients| - 1])
  }

  function Parse(m: Maps, ephemeral: StorageName, d: Decoded): Maps {
    ParseClients(ParseEntries(m, ephemeral, d.entries), d.clients)
  }

  /** Charges one slot of the decision's engine, creating a default entry for an unknown one. */
  function Charge(m: Maps, d: Decision): Maps {
    var e := StateOf(m.engineToState, d.engine);
    m.(engineToState := m.engineToState[d.engine := e.(runningTasks := e.runningTasks + 1)])
  }

  function ChargeAll(m: Maps, ds: seq<Decision>): Maps {
    if ds == [] then m else Charge(ChargeAll(m, ds[..|ds| - 1]), ds[|ds| - 1])
  }

  function Schedulable(m: Maps): set<string> {
    set e | e in m.engineToState && m.engineToState[e].AvailableToSchedule()
  }

  /** The list has each element of the set once. */
  ghost predicate Lists(l: seq<string>, s: set<string>) {
    multiset(l) == multiset(s)
  }

  lemma {:induction false} ListOneMore(l: seq<string>, all: set<string>, rest: set<string>, e: string)
    requires Lists(l, all - rest) && e in rest
    ensures Lists(if e in all then l + [e] else l, all - (rest - {e}))
  {
    if e in all {
      assert all - (rest - {e}) == (all - rest) + {e};
    } else {
      assert all - (rest - {e}) == all - rest;
    }
  }

  // ---- The class --------------------------------------------------------------------

  class ServerlessSystemView {
    const ephemeral: StorageName
    const persistant: StorageName
    var clientUriToEngine: map<string, string>
    var engineToState: map<string, EngineState>
    var hostnameToEngine: map<string, string>
    var mgrToKeys: map<string, seq<string>>
    var persistantKeyToMgr: map<string, string>

    constructor (ephemeral: StorageName, persistant: StorageName)
      ensures this.ephemeral == ephemeral && this.persistant == persistant
      ensures Contents() == Maps(map[], map[], map[], map[], map[])
    {
      this.ephemeral, this.persistant := ephemeral, persistant;
      clientUriToEngine, engineToState, hostnameToEngine := map[], map[], map[];
      mgrToKeys, persistantKeyToMgr := map[], map[];
    }

    function Contents(): Maps
      reads this
    {
      Maps(clientUriToEngine, engineToState, hostnameToEngine, mgrToKeys, persistantKeyToMgr)
    }

    method AddExecutionEngine(execUri: string, clientUri: string, maximumTasks: int)
      requires ':' in execUri
      modifies this
      ensures Contents() == AddEngine(old(Contents()), UriToHostname(execUri), execUri, clientUri, maximumTasks)
      ensures hostnameToEngine == old(hostnameToEngine)[UriToHostname(execUri) := execUri]
      ensures engineToState == old(engineToState)[execUri := EngineState(execUri, "", "", 0, maximumTasks)]
      ensures clientUriToEngine == old(clientUriToEngine)[clientUri := execUri]
      ensures mgrToKeys == old(mgrToKeys) && persistantKeyToMgr == old(persistantKeyToMgr)
    {
      var hostname := UriToHostname(execUri);
      hostnameToEngine := hostnameToEngine[hostname := execUri];
      engineToState := engineToState[execUri := EngineState(execUri, "", "", 0, maximumTasks)];
      clientUriToEngine := clientUriToEngine[clientUri := execUri];
    }

    /** `ok` is false when the assertion on a storage name fails. */
    method ParseGetViewReply(r: GetViewReply) returns (ok: bool)
      requires Readable(r)
      modifies this
      ensures ok <==> NamesStorages(Decode(r).entries)
      ensures ok ==> Contents() == Parse(old(Contents()), ephemeral, Decode(r))
    {
      ghost var d := Decode(r);
      DecodedParts(r);
      ok := ParseManagerViews(r.views, d.entries);
      if ok {
        ParseClientViews(r.clients, d.clients);
      }
    }

    method ParseManagerViews(views: seq<ManagerView>, ghost entries: seq<Entry>) returns (ok: bool)
      requires |entries| == |views|
      requires forall i :: 0 <= i < |views| ==> ReadableView(views[i]) && entries[i] == EntryOf(views[i])
      modifies this
      ensures ok <==> NamesStorages(entries)
      ensures ok ==> Contents() == ParseEntries(old(Contents()), ephemeral, entries)
    {
      for i := 0 to |views|
        invariant NamesStorages(entries[..i])
        invariant Contents() == ParseEntries(old(Contents()), ephemeral, entries[..i])
      {
        ok := ParseManagerView(views[i], entries[i]);
        if !ok { return; }
        ParseOneMore(old(Contents()), ephemeral, entries, i);
      }
      assert entries[..|views|] == entries;
      ok := true;
    }

    method ParseManagerView(view: ManagerView, ghost entry: Entry) returns (ok: bool)
      requires ReadableView(view) && entry == EntryOf(view)
      modifies this
      ensures ok <==> entry.storage.Some?
      ensures ok ==> Contents() == ParseEntry(old(Contents()), ephemeral, entry)
    {
      var engine := RegisteredEngine(UriToHostname(view.uri));
      var storage := ParseStorageName(NameToStorageName(view.name));
      if storage.None? { return false; }
      if storage.value == ephemeral {
        engineToState := engineToState[engine := StateOf(engineToState, engine).(ephemeralName := view.name)];
      } else {
        AddPersistantKeys(view.keys, view.name);
      }
      mgrToKeys := mgrToKeys[view.name := view.keys];
      return true;
    }

    method ParseClientViews(clients: seq<ClientView>, ghost entries: seq<ClientEntry>)
      requires |entries| == |clients|
      requires forall i :: 0 <= i < |clients| ==>
        ':' in clients[i].uri && entries[i] == ClientEntry(UriToHostname(clients[i].uri), clients[i].name)
      modifies this
      ensures Contents() == ParseClients(old(Contents()), entries)
    {
      for i := 0 to |clients|
        invariant Contents() == ParseClients(old(Contents()), entries[..i])
      {
        assert entries[..i + 1][..i] == entries[..i];
        var engine := RegisteredEngine(UriToHostname(clients[i].uri));
        engineToState := engineToState[engine := StateOf(engineToState, engine).(clientName := clients[i].name)];
      }
      assert entries[..|clients|] == entries;
    }

    /** Reading the host's engine with operator[] registers "" for an unknown host. */
    method RegisteredEngine(hostname: string) returns (engine: string)
      modifies this`hostnameToEngine
      ensures engine == EngineOf(old(hostnameToEngine), hostname)
      ensures hostnameToEngine == old(hostnameToEngine)[hostname := engine]
    {
      if hostname !in hostnameToEngine {
        hostnameToEngine := hostnameToEngine[hostname := ""];
      }
      engine := hostnameToEngine[hostname];
    }

    /** The loop over the keys of a persistent manager. */
    method AddPersistantKeys(keys: seq<string>, name: string)
      modifies this`persistantKeyToMgr
      ensures persistantKeyToMgr == old(persistantKeyToMgr) + map k | k in keys :: name
    {
      for i := 0 to |keys|
        invariant persistantKeyToMgr == old(persistantKeyToMgr) + map k | k in keys[..i] :: name
      {
        persistantKeyToMgr := persistantKeyToMgr[keys[i] := name];
        assert keys[..i + 1] == keys[..i] + [keys[i]];
      }
      assert keys[..|keys|] == keys;
    }

    method TasksScheduled(ds: seq<Decision>)
      modifies this
      ensures Contents() == ChargeAll(old(Contents()), ds)
    {
      for i := 0 to |ds|
        invariant Contents() == ChargeAll(old(Contents()), ds[..i])
      {
        assert ds[..i + 1][..i] == ds[..i];
        var e := StateOf(engineToState, ds[i].engine);
        engineToState := engineToState[ds[i].engine := e.(runningTasks := e.runningTasks + 1)];
      }
      assert ds[..|ds|] == ds;
    }

    /** The available engines in any order, each once. */
    method GetSchedulableEngines() returns (engines: seq<string>)
      ensures multiset(engines) == multiset(Schedulable(Contents()))
    {
      engines := [];
      var rest := engineToState.Keys;
      ghost var all := Schedulable(Contents());
      assert all - rest == {};
      while rest != {}
        invariant rest <= engineToState.Keys
        invariant Lists(engines, all - rest)
        decreases rest
      {
        var e :| e in rest;
        ListOneMore(engines, all, rest, e);
        if engineToState[e].AvailableToSchedule() {
          engines := engines + [e];
        }
        rest := rest - {e};
      }
      assert all - rest == all;
    }

    method GetEngineState(engine: string) returns (r: Result<EngineState>)
      ensures r == if engine in engineToState then Success(engineToState[engine]) else Failure(OutOfRange)
    {
      r := if engine in engineToState then Success(engineToState[engine]) else Failure(OutOfRange);
    }

    method GetEphemeralStorageView(engine: string) returns (r: Result<seq<string>>)
      ensures r.Success? <==> engine in engineToState && engineToState[engine].ephemeralName in mgrToKeys
      ensures r.Success? ==> r.value == mgrToKeys[engineToState[engine].ephemeralName]
    {
      var state := GetEngineState(engine);
      if state.Failure? || state.value.ephemeralName !in mgrToKeys { return Failure(OutOfRange); }
      return Success(mgrToKeys[state.value.ephemeralName]);
    }

    method GetPersistentMgrForFile(file: string) returns (r: Result<string>)
      ensures r == if file in persistantKeyToMgr then Success(persistantKeyToMgr[file]) else Failure(OutOfRange)
    {
      r := if file in persistantKeyToMgr then Success(persistantKeyToMgr[file]) else Failure(OutOfRange);
    }

    /** The manager of whichever key the map lists first. On an empty map the source
        reads past the end; that is a failure here. */
    method GetPersistentMgrForPut(file: string) returns (r: Result<string>)
      ensures r.Success? <==> persistantKeyToMgr != map[]
      ensures r.Success? ==> r.value in persistantKeyToMgr.Values
    {
      if persistantKeyToMgr == map[] { return Failure(OutOfRange); }
      assert persistantKeyToMgr.Keys != {};
      var key :| key in persistantKeyToMgr.Keys;
      return Success(persistantKeyToMgr[key]);
    }
  }
}

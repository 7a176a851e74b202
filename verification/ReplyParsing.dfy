/** What parsing a view reply amounts to: a last-writer-wins summary of the reply laid
    over the old maps, and therefore idempotent. */
module ReplyParsing {
  import opened Messages
  import opened Interpreter
  import opened Master
  import opened SystemView

  /** The host's engine after hosts have been looked up with operator[]. */
  function Registered(hosts: map<string, string>, seen: set<string>): map<string, string> {
    (map h | h in seen :: "") + hosts
  }

  function EntryHosts(entries: seq<Entry>): set<string> {
    if entries == [] then {} else EntryHosts(entries[..|entries| - 1]) + {entries[|entries| - 1].hostname}
  }

  function ClientHosts(clients: seq<ClientEntry>): set<string> {
    if clients == [] then {} else ClientHosts(clients[..|clients| - 1]) + {clients[|clients| - 1].hostname}
  }

  predicate EphemeralFor(hosts: map<string, string>, ephemeral: StorageName, v: Entry, engine: string) {
    v.storage == Some(ephemeral) && EngineOf(hosts, v.hostname) == engine
  }

  predicate ClientFor(hosts: map<string, string>, c: ClientEntry, engine: string) {
    EngineOf(hosts, c.hostname) == engine
  }

  predicate PersistantListing(ephemeral: StorageName, v: Entry, key: string) {
    v.storage != Some(ephemeral) && key in v.keys
  }

  /** Engine -> the last ephemeral manager reported for its host. */
  function EphemeralNames(hosts: map<string, string>, ephemeral: StorageName,
                          entries: seq<Entry>): map<string, string> {
    if entries == [] then map[]
    else
      var before, v := EphemeralNames(hosts, ephemeral, entries[..|entries| - 1]), entries[|entries| - 1];
      if v.storage == Some(ephemeral) then before[EngineOf(hosts, v.hostname) := v.name] else before
  }

  /** Key -> the last non-ephemeral manager listing it. */
  function PersistantManagers(ephemeral: StorageName, entries: seq<Entry>): map<string, string> {
    if entries == [] then map[]
    else
      var before, v := PersistantManagers(ephemeral, entries[..|entries| - 1]), entries[|entries| - 1];
      if v.storage == Some(ephemeral) then before else before + map k | k in v.keys :: v.name
  }

  /** Manager -> the keys of its last entry. */
  function KeysByManager(entries: seq<Entry>): map<string, seq<string>> {
    if entries == [] then map[]
    else KeysByManager(entries[..|entries| - 1])[entries[|entries| - 1].name := entries[|entries| - 1].keys]
  }

  /** Engine -> the last client reported for its host. */
  function ClientNames(hosts: map<string, string>, clients: seq<ClientEntry>): map<string, string> {
    if clients == [] then map[]
    else
      var c := clients[|clients| - 1];
      ClientNames(hosts, clients[..|clients| - 1])[EngineOf(hosts, c.hostname) := c.name]
  }

  /** Engine states with new ephemeral and client names; unknown engines start as default ones. */
  function Overlay(states: map<string, EngineState>, ephemerals: map<string, string>, clients: map<string, string>)
    : map<string, EngineState>
  {
    map e | e in states.Keys + ephemerals.Keys + clients.Keys ::
      var state := StateOf(states, e);
      state.(ephemeralName := if e in ephemerals then ephemerals[e] else state.ephemeralName,
             clientName := if e in clients then clients[e] else state.clientName)
  }

  function Summary(m: Maps, ephemeral: StorageName, d: Decoded): Maps {
    var hosts := m.hostnameToEngine;
    Maps(m.clientUriToEngine,
         Overlay(m.engineToState, EphemeralNames(hosts, ephemeral, d.entries), ClientNames(hosts, d.clients)),
         Registered(hosts, EntryHosts(d.entries) + ClientHosts(d.clients)),
         m.mgrToKeys + KeysByManager(d.entries),
         m.persistantKeyToMgr + PersistantManagers(ephemeral, d.entries))
  }

  // ---- The fold is the summary ----------------------------------------------------

  lemma {:induction false} RegisteredAgrees(hosts: map<string, string>, seen: set<string>, h: string)
    ensures EngineOf(Registered(hosts, seen), h) == EngineOf(hosts, h)
    ensures Registered(hosts, seen)[h := EngineOf(hosts, h)] == Registered(hosts, seen + {h})
  {
  }

  lemma {:induction false} OverlaySetsEphemeral(states: map<string, EngineState>, ephemerals: map<string, string>,
                             clients: map<string, string>, e: string, name: string)
    ensures var over := Overlay(states, ephemerals, clients);
            over[e := StateOf(over, e).(ephemeralName := name)] == Overlay(states, ephemerals[e := name], clients)
  {
  }

  lemma {:induction false} OverlaySetsClient(states: map<string, EngineState>, ephemerals: map<string, string>,
                          clients: map<string, string>, e: string, name: string)
    ensures var over := Overlay(states, ephemerals, clients);
            over[e := StateOf(over, e).(clientName := name)] == Overlay(states, ephemerals, clients[e := name])
  {
  }

  lemma {:induction false} MergeThenUpdate<K, V>(m: map<K, V>, d: map<K, V>, k: K, v: V)
    ensures (m + d)[k := v] == m + d[k := v]
  {
  }

  lemma {:induction false} MergeThenMerge<K, V>(m: map<K, V>, d: map<K, V>, e: map<K, V>)
    ensures (m + d) + e == m + (d + e)
    ensures (m + d) + d == m + d
  {
  }

  lemma {:induction false} OverlayTwice(states: map<string, EngineState>, e: map<string, string>,
                                        c: map<string, string>)
    ensures Overlay(Overlay(states, e, c), e, c) == Overlay(states, e, c)
  {
  }

  lemma {:induction false} RegisteredTwice(hosts: map<string, string>, seen: set<string>)
    ensures Registered(Registered(hosts, seen), seen) == Registered(hosts, seen)
  {
  }

  lemma {:induction false} PartsTakeEntry(hosts: map<string, string>, ephemeral: StorageName, before: seq<Entry>,
                                          v: Entry)
    ensures EntryHosts(before + [v]) == EntryHosts(before) + {v.hostname}
    ensures KeysByManager(before + [v]) == KeysByManager(before)[v.name := v.keys]
    ensures EphemeralNames(hosts, ephemeral, before + [v]) ==
            if v.storage == Some(ephemeral)
            then EphemeralNames(hosts, ephemeral, before)[EngineOf(hosts, v.hostname) := v.name]
            else EphemeralNames(hosts, ephemeral, before)
    ensures PersistantManagers(ephemeral, before + [v]) ==
            if v.storage == Some(ephemeral) then PersistantManagers(ephemeral, before)
            else PersistantManagers(ephemeral, before) + map k | k in v.keys :: v.name
  {
    assert (before + [v])[..|before + [v]| - 1] == before;
  }

  lemma {:induction false} SummaryTakesEntry(m: Maps, ephemeral: StorageName, before: seq<Entry>, v: Entry)
    ensures ParseEntry(Summary(m, ephemeral, Decoded(before, [])), ephemeral, v)
            == Summary(m, ephemeral, Decoded(before + [v], []))
  {
    var hosts := m.hostnameToEngine;
    var seen := EntryHosts(before) + ClientHosts([]);
    PartsTakeEntry(hosts, ephemeral, before, v);
    RegisteredAgrees(hosts, seen, v.hostname);
    assert seen + {v.hostname} == EntryHosts(before + [v]) + ClientHosts([]);
    OverlaySetsEphemeral(m.engineToState, EphemeralNames(hosts, ephemeral, before), map[],
                         EngineOf(hosts, v.hostname), v.name);
    MergeThenUpdate(m.mgrToKeys, KeysByManager(before), v.name, v.keys);
    MergeThenMerge(m.persistantKeyToMgr, PersistantManagers(ephemeral, before), map k | k in v.keys :: v.name);
  }

  lemma {:induction false} ParseEntriesIsSummary(m: Maps, ephemeral: StorageName, entries: seq<Entry>)
    ensures ParseEntries(m, ephemeral, entries) == Summary(m, ephemeral, Decoded(entries, []))
  {
    if entries == [] {
      assert Registered(m.hostnameToEngine, EntryHosts([]) + ClientHosts([])) == m.hostnameToEngine;
      assert Overlay(m.engineToState, map[], map[]) == m.engineToState;
    } else {
      ParseEntriesIsSummary(m, ephemeral, entries[..|entries| - 1]);
      SummaryTakesEntry(m, ephemeral, entries[..|entries| - 1], entries[|entries| - 1]);
      assert entries[..|entries| - 1] + [entries[|entries| - 1]] == entries;
    }
  }

  lemma {:induction false} ParseIsSummary(m: Maps, ephemeral: StorageName, d: Decoded)
    ensures Parse(m, ephemeral, d) == Summary(m, ephemeral, d)
    decreases |d.clients|
  {
    if d.clients == [] {
      ParseEntriesIsSummary(m, ephemeral, d.entries);
    } else {
      var before, c := d.clients[..|d.clients| - 1], d.clients[|d.clients| - 1];
      var hosts := m.hostnameToEngine;
      ParseIsSummary(m, ephemeral, Decoded(d.entries, before));
      RegisteredAgrees(hosts, EntryHosts(d.entries) + ClientHosts(before), c.hostname);
      assert EntryHosts(d.entries) + ClientHosts(before) + {c.hostname}
        == EntryHosts(d.entries) + ClientHosts(d.clients);
      OverlaySetsClient(m.engineToState, EphemeralNames(hosts, ephemeral, d.entries), ClientNames(hosts, before),
                        EngineOf(hosts, c.hostname), c.name);
    }
  }

  lemma {:induction false} SameEphemeralNames(hosts: map<string, string>, seen: set<string>, ephemeral: StorageName,
                                              entries: seq<Entry>)
    ensures EphemeralNames(Registered(hosts, seen), ephemeral, entries) == EphemeralNames(hosts, ephemeral, entries)
  {
    if entries != [] {
      SameEphemeralNames(hosts, seen, ephemeral, entries[..|entries| - 1]);
      RegisteredAgrees(hosts, seen, entries[|entries| - 1].hostname);
    }
  }

  lemma {:induction false} SameClientNames(hosts: map<string, string>, seen: set<string>, clients: seq<ClientEntry>)
    ensures ClientNames(Registered(hosts, seen), clients) == ClientNames(hosts, clients)
  {
    if clients != [] {
      SameClientNames(hosts, seen, clients[..|clients| - 1]);
      RegisteredAgrees(hosts, seen, clients[|clients| - 1].hostname);
    }
  }

  /** A second parse of the same reply changes nothing, on every state: hosts without an
      engine and the "" entry they create included. */
  lemma {:induction false} ParseIsIdempotent(m: Maps, ephemeral: StorageName, d: Decoded)
    ensures Parse(Parse(m, ephemeral, d), ephemeral, d) == Parse(m, ephemeral, d)
  {
    var once := Summary(m, ephemeral, d);
    ParseIsSummary(m, ephemeral, d);
    ParseIsSummary(once, ephemeral, d);
    var hosts, seen := m.hostnameToEngine, EntryHosts(d.entries) + ClientHosts(d.clients);
    SameEphemeralNames(hosts, seen, ephemeral, d.entries);
    SameClientNames(hosts, seen, d.clients);
    RegisteredTwice(hosts, seen);
    OverlayTwice(m.engineToState, EphemeralNames(hosts, ephemeral, d.entries), ClientNames(hosts, d.clients));
    MergeThenMerge(m.mgrToKeys, KeysByManager(d.entries), map[]);
    MergeThenMerge(m.persistantKeyToMgr, PersistantManagers(ephemeral, d.entries), map[]);
  }

  /** Parsing registers the hosts it meets, unknown ones with "", and changes no other host and
      no client URI. */
  lemma {:induction false} ParseRegistersHosts(m: Maps, ephemeral: StorageName, d: Decoded, h: string)
    ensures var m' := Parse(m, ephemeral, d);
            && m'.clientUriToEngine == m.clientUriToEngine
            && (h in m'.hostnameToEngine <==>
                  h in m.hostnameToEngine
                  || (exists i :: 0 <= i < |d.entries| && d.entries[i].hostname == h)
                  || (exists i :: 0 <= i < |d.clients| && d.clients[i].hostname == h))
            && (h in m.hostnameToEngine ==> h in m'.hostnameToEngine && m'.hostnameToEngine[h] == m.hostnameToEngine[h])
            && (h in m'.hostnameToEngine && h !in m.hostnameToEngine ==> m'.hostnameToEngine[h] == "")
  {
    ParseIsSummary(m, ephemeral, d);
    EntryHostsAre(d.entries, h);
    ClientHostsAre(d.clients, h);
  }

  lemma {:induction false} EntryHostsAre(entries: seq<Entry>, h: string)
    ensures h in EntryHosts(entries) <==> exists i :: 0 <= i < |entries| && entries[i].hostname == h
  {
    if entries != [] {
      EntryHostsAre(entries[..|entries| - 1], h);
      assert entries == entries[..|entries| - 1] + [entries[|entries| - 1]];
    }
  }

  lemma {:induction false} ClientHostsAre(clients: seq<ClientEntry>, h: string)
    ensures h in ClientHosts(clients) <==> exists i :: 0 <= i < |clients| && clients[i].hostname == h
  {
    if clients != [] {
      ClientHostsAre(clients[..|clients| - 1], h);
      assert clients == clients[..|clients| - 1] + [clients[|clients| - 1]];
    }
  }

  // ---- Last writer wins ------------------------------------------------------------

  /** The last entry of a manager decides its keys; managers not reported keep theirs. */
  lemma {:induction false} LastEntryDecidesKeys(entries: seq<Entry>, n: string)
    ensures n in KeysByManager(entries) <==> exists i :: 0 <= i < |entries| && entries[i].name == n
    ensures forall i :: 0 <= i < |entries| && entries[i].name == n
              && (forall j :: i < j < |entries| ==> entries[j].name != n)
              ==> KeysByManager(entries)[n] == entries[i].keys
  {
    if entries != [] {
      LastEntryDecidesKeys(entries[..|entries| - 1], n);
      assert entries == entries[..|entries| - 1] + [entries[|entries| - 1]];
    }
  }

  lemma {:induction false} LastListingDecidesManager(ephemeral: StorageName, entries: seq<Entry>, k: string)
    ensures k in PersistantManagers(ephemeral, entries) <==>
              exists i :: 0 <= i < |entries| && PersistantListing(ephemeral, entries[i], k)
    ensures forall i :: 0 <= i < |entries| && PersistantListing(ephemeral, entries[i], k)
              && (forall j :: i < j < |entries| ==> !PersistantListing(ephemeral, entries[j], k))
              ==> PersistantManagers(ephemeral, entries)[k] == entries[i].name
  {
    if entries != [] {
      LastListingDecidesManager(ephemeral, entries[..|entries| - 1], k);
      assert entries == entries[..|entries| - 1] + [entries[|entries| - 1]];
    }
  }

  lemma {:induction false} LastEphemeralDecidesName(hosts: map<string, string>, ephemeral: StorageName,
                                                    entries: seq<Entry>, e: string)
    ensures e in EphemeralNames(hosts, ephemeral, entries) <==>
              exists i :: 0 <= i < |entries| && EphemeralFor(hosts, ephemeral, entries[i], e)
    ensures forall i :: 0 <= i < |entries| && EphemeralFor(hosts, ephemeral, entries[i], e)
              && (forall j :: i < j < |entries| ==> !EphemeralFor(hosts, ephemeral, entries[j], e))
              ==> EphemeralNames(hosts, ephemeral, entries)[e] == entries[i].name
  {
    if entries != [] {
      var n := |entries| - 1;
      var before := entries[..n];
      LastEphemeralDecidesName(hosts, ephemeral, before, e);
      assert forall i :: 0 <= i < n ==> before[i] == entries[i];
      if EphemeralFor(hosts, ephemeral, entries[n], e) {
        assert EphemeralNames(hosts, ephemeral, entries)[e] == entries[n].name;
      } else {
        assert e in EphemeralNames(hosts, ephemeral, entries) <==> e in EphemeralNames(hosts, ephemeral, before);
        forall i | 0 <= i < |entries| && EphemeralFor(hosts, ephemeral, entries[i], e)
          && (forall j :: i < j < |entries| ==> !EphemeralFor(hosts, ephemeral, entries[j], e))
          ensures EphemeralNames(hosts, ephemeral, entries)[e] == entries[i].name
        {
          assert EphemeralFor(hosts, ephemeral, before[i], e);
        }
      }
    }
  }

  lemma {:induction false} LastClientDecidesName(hosts: map<string, string>, clients: seq<ClientEntry>, e: string)
    ensures e in ClientNames(hosts, clients) <==>
              exists i :: 0 <= i < |clients| && ClientFor(hosts, clients[i], e)
    ensures forall i :: 0 <= i < |clients| && ClientFor(hosts, clients[i], e)
              && (forall j :: i < j < |clients| ==> !ClientFor(hosts, clients[j], e))
              ==> ClientNames(hosts, clients)[e] == clients[i].name
  {
    if clients != [] {
      var n := |clients| - 1;
      var before := clients[..n];
      LastClientDecidesName(hosts, before, e);
      assert forall i :: 0 <= i < n ==> before[i] == clients[i];
      if ClientFor(hosts, clients[n], e) {
        assert ClientNames(hosts, clients)[e] == clients[n].name;
      } else {
        assert e in ClientNames(hosts, clients) <==> e in ClientNames(hosts, before);
        forall i | 0 <= i < |clients| && ClientFor(hosts, clients[i], e)
          && (forall j :: i < j < |clients| ==> !ClientFor(hosts, clients[j], e))
          ensures ClientNames(hosts, clients)[e] == clients[i].name
        {
          assert ClientFor(hosts, before[i], e);
        }
      }
    }
  }

  // ---- From the master's view to the scheduler's ---------------------------------------

  lemma {:induction false} LastNamed(entries: seq<Entry>, n: string) returns (i: nat)
    requires exists j :: 0 <= j < |entries| && entries[j].name == n
    ensures i < |entries| && entries[i].name == n && forall j :: i < j < |entries| ==> entries[j].name != n
  {
    i := |entries| - 1;
    if entries[i].name != n {
      i := LastNamed(entries[..i], n);
    }
  }

  lemma {:induction false} ReportedKeys(entries: seq<Entry>, views: seq<ManagerView>, view: View, n: string)
    requires |entries| == |views| && ListsView(views, view)
    requires forall i :: 0 <= i < |views| ==> entries[i].name == views[i].name && entries[i].keys == views[i].keys
    ensures n in KeysByManager(entries) <==> n in view
    ensures n in view ==> multiset(KeysByManager(entries)[n]) == multiset(view[n])
  {
    LastEntryDecidesKeys(entries, n);
    ListedNames(views, view, n);
    if n in view {
      var v :| v in views && v.name == n;
      var i :| 0 <= i < |views| && views[i] == v;
      assert entries[i].name == n;
      var j := LastNamed(entries, n);
    }
  }

  lemma {:induction false} MergeIsReported(m: map<string, seq<string>>, reported: map<string, seq<string>>, view: View)
    requires reported.Keys == view.Keys
    requires forall n <- view.Keys :: multiset(reported[n]) == multiset(view[n])
    ensures forall n <- view.Keys :: n in m + reported && multiset((m + reported)[n]) == multiset(view[n])
    ensures (m + reported) - view.Keys == m - view.Keys
  {
  }

  /** After parsing a reply that lists the master's view, the scheduler holds for every
      manager of the view exactly its keys, each once, and the other managers' keys as before. */
  lemma {:induction false} ParsedKeysAreTheView(m: Maps, ephemeral: StorageName, r: GetViewReply, view: View)
    requires Readable(r) && ListsView(r.views, view)
    ensures var keys := Parse(m, ephemeral, Decode(r)).mgrToKeys;
            && (forall n <- view.Keys :: n in keys && multiset(keys[n]) == multiset(view[n]))
            && keys - view.Keys == m.mgrToKeys - view.Keys
  {
    var d := Decode(r);
    DecodedFields(r);
    ParsedEntriesAreTheView(m, ephemeral, d, r.views, view);
  }

  lemma {:induction false} DecodedFields(r: GetViewReply)
    requires Readable(r)
    ensures forall i :: 0 <= i < |r.views| ==>
      Decode(r).entries[i].name == r.views[i].name && Decode(r).entries[i].keys == r.views[i].keys
  {
  }

  lemma {:induction false} ParsedEntriesAreTheView(m: Maps, ephemeral: StorageName, d: Decoded,
                                                   views: seq<ManagerView>, view: View)
    requires ListsView(views, view) && |d.entries| == |views|
    requires forall i :: 0 <= i < |views| ==> d.entries[i].name == views[i].name && d.entries[i].keys == views[i].keys
    ensures var keys := Parse(m, ephemeral, d).mgrToKeys;
            && (forall n <- view.Keys :: n in keys && multiset(keys[n]) == multiset(view[n]))
            && keys - view.Keys == m.mgrToKeys - view.Keys
  {
    ParseIsSummary(m, ephemeral, d);
    var reported := KeysByManager(d.entries);
    forall n
      ensures n in reported <==> n in view
      ensures n in view ==> multiset(reported[n]) == multiset(view[n])
    {
      ReportedKeys(d.entries, views, view, n);
    }
    MergeIsReported(m.mgrToKeys, reported, view);
  }
}

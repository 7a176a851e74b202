/** From introductions to the scheduler's view: a manager's generated name and URI in a view
    reply lead the scheduler to the engine on the same host. */
module IntroducedViews {
  import opened Messages
  import opened Naming
  import opened SystemView
  import opened ReplyParsing
  import opened SchedulerRuns

  /** The view of a manager as its introduction and the master's tracking make it. */
  predicate IsViewOf(v: ManagerView, r: IntroduceRequest) {
    r.ManagerIntroduce? && v.name == GenerateName(r) && v.uri == HostPort(r.hostname, r.port)
  }

  /** A manager's view decodes to its host, its storage, its name and its keys. */
  lemma {:induction false} IntroducedManagerDecodes(reply: GetViewReply, i: nat, r: IntroduceRequest)
    requires Readable(reply) && i < |reply.views| && IsViewOf(reply.views[i], r) && ':' !in r.hostname
    ensures Decode(reply).entries[i] == Entry(r.hostname, Some(r.storageName), reply.views[i].name, reply.views[i].keys)
  {
    HostPortParsesBack(r.hostname, r.port);
    ManagerNameParsesBack(r);
  }

  lemma {:induction false} IntroducedClientDecodes(reply: GetViewReply, i: nat, hostname: string, port: string)
    requires Readable(reply) && i < |reply.clients| && reply.clients[i].uri == HostPort(hostname, port)
    requires ':' !in hostname
    ensures Decode(reply).clients[i] == ClientEntry(hostname, reply.clients[i].name)
  {
    HostPortParsesBack(hostname, port);
  }

  /** The engine at the URI has just been introduced. */
  function Introducing(m: Maps, execUri: string, clientUri: string, slots: int): Maps
    requires ':' in execUri
  {
    AddEngine(m, UriToHostname(execUri), execUri, clientUri, slots)
  }

  /** No view after the i-th is of an ephemeral manager on a host of the engine. */
  ghost predicate LastEphemeralFor(m: Maps, ephemeral: StorageName, reply: GetViewReply, execUri: string, i: nat)
    requires Readable(reply)
  {
    forall j :: i < j < |reply.views| ==>
      EngineOf(m.hostnameToEngine, UriToHostname(reply.views[j].uri)) != execUri
      || ParseStorageName(NameToStorageName(reply.views[j].name)) != Some(ephemeral)
  }

  ghost predicate LastClientFor(m: Maps, reply: GetViewReply, execUri: string, i: nat)
    requires Readable(reply)
  {
    forall j :: i < j < |reply.clients| ==> EngineOf(m.hostnameToEngine, UriToHostname(reply.clients[j].uri)) != execUri
  }

  /** After an engine was introduced, parsing a reply gives it the last ephemeral manager
      introduced on its host. */
  lemma {:induction false} EngineGetsEphemeral(m: Maps, ephemeral: StorageName, reply: GetViewReply, i: nat,
                                               r: IntroduceRequest, execPort: string, clientUri: string, slots: int)
    requires Readable(reply) && i < |reply.views| && IsViewOf(reply.views[i], r)
    requires ':' !in r.hostname && r.storageName == ephemeral
    requires ':' in HostPort(r.hostname, execPort)
    requires var execUri := HostPort(r.hostname, execPort);
             LastEphemeralFor(Introducing(m, execUri, clientUri, slots), ephemeral, reply, execUri, i)
    ensures var execUri := HostPort(r.hostname, execPort);
            var states := Parse(Introducing(m, execUri, clientUri, slots), ephemeral, Decode(reply)).engineToState;
            StateOf(states, execUri).ephemeralName == reply.views[i].name
  {
    var execUri, d := HostPort(r.hostname, execPort), Decode(reply);
    var before := Introducing(m, execUri, clientUri, slots);
    HostPortParsesBack(r.hostname, execPort);
    IntroducedManagerDecodes(reply, i, r);
    assert EphemeralFor(before.hostnameToEngine, ephemeral, d.entries[i], execUri);
    forall j | i < j < |d.entries| ensures !EphemeralFor(before.hostnameToEngine, ephemeral, d.entries[j], execUri) {
      assert d.entries[j].hostname == UriToHostname(reply.views[j].uri);
    }
    LastEphemeralDecidesName(before.hostnameToEngine, ephemeral, d.entries, execUri);
    ParseSetsNames(before, ephemeral, d, execUri);
  }

  /** And the last client on its host. */
  lemma {:induction false} EngineGetsClient(m: Maps, ephemeral: StorageName, reply: GetViewReply, i: nat,
                                            hostname: string, port: string, execPort: string, clientUri: string,
                                            slots: int)
    requires Readable(reply) && i < |reply.clients| && reply.clients[i].uri == HostPort(hostname, port)
    requires ':' !in hostname && ':' in HostPort(hostname, execPort)
    requires var execUri := HostPort(hostname, execPort);
             LastClientFor(Introducing(m, execUri, clientUri, slots), reply, execUri, i)
    ensures var execUri := HostPort(hostname, execPort);
            var states := Parse(Introducing(m, execUri, clientUri, slots), ephemeral, Decode(reply)).engineToState;
            StateOf(states, execUri).clientName == reply.clients[i].name
  {
    var execUri, d := HostPort(hostname, execPort), Decode(reply);
    var before := Introducing(m, execUri, clientUri, slots);
    HostPortParsesBack(hostname, execPort);
    IntroducedClientDecodes(reply, i, hostname, port);
    assert ClientFor(before.hostnameToEngine, d.clients[i], execUri);
    forall j | i < j < |d.clients| ensures !ClientFor(before.hostnameToEngine, d.clients[j], execUri) {
      assert d.clients[j].hostname == UriToHostname(reply.clients[j].uri);
    }
    LastClientDecidesName(before.hostnameToEngine, d.clients, execUri);
    ParseSetsNames(before, ephemeral, d, execUri);
  }

  /** The unit test's scenario in general: an engine with slots, an ephemeral manager and a named
      client, all on one host, make a schedulable engine. */
  lemma {:induction false} IntroducedEngineIsSchedulable(m: Maps, ephemeral: StorageName, reply: GetViewReply,
                                                         i: nat, c: nat, r: IntroduceRequest, port: string,
                                                         execPort: string, clientUri: string, slots: int)
    requires Readable(reply) && i < |reply.views| && IsViewOf(reply.views[i], r)
    requires ':' !in r.hostname && r.storageName == ephemeral && slots > 0
    requires c < |reply.clients| && reply.clients[c].uri == HostPort(r.hostname, port) && reply.clients[c].name != ""
    requires ':' in HostPort(r.hostname, execPort)
    requires var execUri := HostPort(r.hostname, execPort);
             var before := Introducing(m, execUri, clientUri, slots);
             LastEphemeralFor(before, ephemeral, reply, execUri, i) && LastClientFor(before, reply, execUri, c)
    ensures var execUri := HostPort(r.hostname, execPort);
            execUri in Schedulable(Parse(Introducing(m, execUri, clientUri, slots), ephemeral, Decode(reply)))
  {
    var execUri := HostPort(r.hostname, execPort);
    var before := Introducing(m, execUri, clientUri, slots);
    EngineGetsEphemeral(m, ephemeral, reply, i, r, execPort, clientUri, slots);
    EngineGetsClient(m, ephemeral, reply, c, r.hostname, port, execPort, clientUri, slots);
    ParseSetsNames(before, ephemeral, Decode(reply), execUri);
    ManagerNameParsesBack(r);
    ParseIsSummary(before, ephemeral, Decode(reply));
  }
}

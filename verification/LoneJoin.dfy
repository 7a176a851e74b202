/** Single events of the state machine, tied to what the master, the managers and the clients
    do in one go: a manager's start, a client's introduction, the beginning of a view reply,
    a copy from a manager that has stopped, a client's death. */
module LoneJoin {
  import opened Messages
  import opened Interpreter
  import opened Master
  import opened Cluster
  import opened LoneCall

  // ---- A manager's start --------------------------------------------------------------

  function FileSteps(u: string, n: nat): (steps: seq<Step>)
    ensures |steps| == n
  {
    if n == 0 then [] else FileSteps(u, n - 1) + [ManagerFile(u)]
  }

  /** The master has met the joining manager and filed its first n keys. */
  function Filed(s: System, u: string, name: string, keys: seq<string>, n: nat): System
    requires n <= |keys|
  {
    s.(peers := s.peers[name := u], view := s.view[name := Elements(keys[..n])],
       joining := s.joining[u := Filling(name, keys[n..])])
  }

  lemma {:induction false} Greets(s: System, u: string, name: string, keys: seq<string>)
    requires u in s.stores && u !in s.serving && u !in s.joining
    requires multiset(keys) == multiset(s.stores[u].Keys)
    ensures Leads(s, [ManagerStart(u, name, keys)], s.(joining := s.joining[u := Greeting(name, keys)]))
  {
    LeadsOne(s, ManagerStart(u, name, keys));
  }

  lemma {:induction false} Meets(s: System, u: string, name: string, keys: seq<string>)
    ensures Leads(s.(joining := s.joining[u := Greeting(name, keys)]), [ManagerMet(u)],
                  s.(peers := s.peers[name := u], joining := s.joining[u := Resetting(name, keys)]))
  {
    var before := s.(joining := s.joining[u := Greeting(name, keys)]);
    LeadsOne(before, ManagerMet(u));
    assert s.joining[u := Greeting(name, keys)][u := Resetting(name, keys)] == s.joining[u := Resetting(name, keys)];
  }

  lemma {:induction false} Resets(s: System, u: string, name: string, keys: seq<string>)
    ensures Leads(s.(peers := s.peers[name := u], joining := s.joining[u := Resetting(name, keys)]), [ManagerReset(u)],
                  Filed(s, u, name, keys, 0))
  {
    var before := s.(peers := s.peers[name := u], joining := s.joining[u := Resetting(name, keys)]);
    LeadsOne(before, ManagerReset(u));
    assert keys[0..] == keys && Elements(keys[..0]) == {};
    assert s.joining[u := Resetting(name, keys)][u := Filling(name, keys)] == s.joining[u := Filling(name, keys)];
  }

  lemma {:induction false} FilesNext(s: System, u: string, name: string, keys: seq<string>, n: nat)
    requires n < |keys|
    ensures Leads(Filed(s, u, name, keys, n), [ManagerFile(u)], Filed(s, u, name, keys, n + 1))
  {
    var before := Filed(s, u, name, keys, n);
    LeadsOne(before, ManagerFile(u));
    assert keys[n..][1..] == keys[n + 1..] && keys[n..][0] == keys[n];
    assert Elements(keys[..n + 1]) == Elements(keys[..n]) + {keys[n]} by {
      assert keys[..n + 1] == keys[..n] + [keys[n]];
    }
    assert before.joining[u := Filling(name, keys[n + 1..])] == s.joining[u := Filling(name, keys[n + 1..])];
    assert AddFile(before.view, name, keys[n]) == s.view[name := Elements(keys[..n + 1])];
  }

  lemma {:induction false} FilesAll(s: System, u: string, name: string, keys: seq<string>, n: nat)
    requires n <= |keys|
    ensures Leads(Filed(s, u, name, keys, 0), FileSteps(u, n), Filed(s, u, name, keys, n))
  {
    if n == 0 {
      LeadsNowhere(Filed(s, u, name, keys, 0));
    } else {
      FilesAll(s, u, name, keys, n - 1);
      FilesNext(s, u, name, keys, n - 1);
      LeadsOn(Filed(s, u, name, keys, 0), FileSteps(u, n - 1), Filed(s, u, name, keys, n - 1), [ManagerFile(u)],
              Filed(s, u, name, keys, n));
    }
  }

  /** What a manager's start leaves behind: its name leads to it, the view has exactly its
      keys, and it serves. */
  function Joined(s: System, u: string, name: string): System
    requires u in s.stores
  {
    s.(peers := s.peers[name := u], view := s.view[name := s.stores[u].Keys], serving := s.serving + {u})
  }

  lemma {:induction false} Serves(s: System, u: string, name: string, keys: seq<string>)
    requires u in s.stores && u !in s.joining && multiset(keys) == multiset(s.stores[u].Keys)
    ensures Leads(Filed(s, u, name, keys, |keys|), [ManagerServe(u)], Joined(s, u, name))
  {
    var before := Filed(s, u, name, keys, |keys|);
    LeadsOne(before, ManagerServe(u));
    assert keys[..|keys|] == keys && keys[|keys|..] == [];
    assert Elements(keys) == s.stores[u].Keys by {
      forall k ensures k in Elements(keys) <==> k in s.stores[u].Keys {
        assert k in keys <==> k in multiset(keys);
        assert k in s.stores[u].Keys <==> k in multiset(s.stores[u].Keys);
      }
    }
    assert before.joining - {u} == s.joining;
  }

  function JoinSteps(u: string, name: string, keys: seq<string>): seq<Step> {
    [ManagerStart(u, name, keys)] + [ManagerMet(u)] + [ManagerReset(u)] + FileSteps(u, |keys|) + [ManagerServe(u)]
  }

  /** A manager's start without interruption, whatever the view held under its name before. */
  lemma {:induction false} JoinIsStart(s: System, u: string, name: string, keys: seq<string>)
    requires u in s.stores && u !in s.serving && u !in s.joining
    requires multiset(keys) == multiset(s.stores[u].Keys)
    ensures Leads(s, JoinSteps(u, name, keys), Joined(s, u, name))
  {
    var n := |keys|;
    var greeting := s.(joining := s.joining[u := Greeting(name, keys)]);
    var resetting := s.(peers := s.peers[name := u], joining := s.joining[u := Resetting(name, keys)]);
    var start, met, reset := [ManagerStart(u, name, keys)], [ManagerMet(u)], [ManagerReset(u)];
    Greets(s, u, name, keys);
    Meets(s, u, name, keys);
    LeadsOn(s, start, greeting, met, resetting);
    Resets(s, u, name, keys);
    LeadsOn(s, start + met, resetting, reset, Filed(s, u, name, keys, 0));
    FilesAll(s, u, name, keys, n);
    LeadsOn(s, start + met + reset, Filed(s, u, name, keys, 0), FileSteps(u, n), Filed(s, u, name, keys, n));
    Serves(s, u, name, keys);
    LeadsOn(s, start + met + reset + FileSteps(u, n), Filed(s, u, name, keys, n),
            [ManagerServe(u)], Joined(s, u, name));
  }

  /** A view reply begun after the start lists the manager with exactly its keys. */
  lemma {:induction false} JoinedIsListed(s: System, u: string, name: string, keys: seq<string>)
    returns (w: System)
    requires u in s.stores && u !in s.serving && u !in s.joining
    requires multiset(keys) == multiset(s.stores[u].Keys)
    ensures Leads(s, JoinSteps(u, name, keys) + [ViewBegin], w)
    ensures exists half <- w.halfReplies :: half == s.view[name := s.stores[u].Keys]
  {
    JoinIsStart(s, u, name, keys);
    LeadsOne(Joined(s, u, name), ViewBegin);
    w := Next(Joined(s, u, name), ViewBegin);
    LeadsOn(s, JoinSteps(u, name, keys), Joined(s, u, name), [ViewBegin], w);
    assert s.view[name := s.stores[u].Keys] in w.halfReplies;
  }

  /** Every system can start up: whatever the managers store and whoever the clients are, it has
      an initial state, and its first manager joins. */
  lemma {:induction false} FirstManagerJoins(stores: Stores, clients: set<string>, threads: set<Thread>, u: string,
                                             name: string, keys: seq<string>)
    returns (s: System, w: System)
    requires u in stores && multiset(keys) == multiset(stores[u].Keys)
    ensures Initial(s) && s.stores == stores && s.rules.Keys == clients && s.threads.Keys == threads
    ensures Leads(s, JoinSteps(u, name, keys), w)
    ensures w.view == map[name := stores[u].Keys] && w.peers == map[name := u] && w.serving == {u}
  {
    s := System(map[], map[], stores, {}, map[], map c | c in clients :: map[], map t | t in threads :: Idle, {}, {});
    w := Joined(s, u, name);
    JoinIsStart(s, u, name, keys);
  }

  // ---- Other single events ------------------------------------------------------------

  /** A client's introduction tracks it and nothing else. */
  lemma {:induction false} ClientIsMet(s: System, name: string, client: string)
    requires client in s.rules
    ensures Leads(s, [ClientMet(name, client)], s.(peers := s.peers[name := client]))
  {
    LeadsOne(s, ClientMet(name, client));
  }

  /** A manager that stops keeps its store and its entry in the view. */
  lemma {:induction false} ManagerStops(s: System, u: string)
    requires u in s.serving
    ensures Leads(s, [ManagerStop(u)], s.(serving := s.serving - {u}))
  {
    LeadsOne(s, ManagerStop(u));
  }

  /** After removing a rule the client finds none for its operation and key, and every other
      rule as before. */
  lemma {:induction false} RuleIsRemoved(s: System, client: string, op: OperationType, key: string) returns (w: System)
    requires client in s.rules
    ensures Leads(s, [Uninstall(client, op, key)], w) && w == s.(rules := w.rules)
    ensures w.rules.Keys == s.rules.Keys && (op, key) !in w.rules[client]
    ensures forall c <- s.rules.Keys, o, k :: c != client || (o, k) != (op, key) ==>
              ((o, k) in w.rules[c] <==> (o, k) in s.rules[c])
              && ((o, k) in s.rules[c] ==> w.rules[c][(o, k)] == s.rules[c][(o, k)])
  {
    LeadsOne(s, Uninstall(client, op, key));
    w := Next(s, Uninstall(client, op, key));
  }

  /** A copy whose destination has stopped does not wait for it: the source stores the empty
      value. */
  lemma {:induction false} CopyFromStopped(s: System, t: Thread) returns (w: System)
    requires t in s.threads && s.threads[t].Running?
    requires s.threads[t].pc < |s.threads[t].call.body| && s.threads[t].call.body[s.threads[t].pc].CopyFromAction?
    requires var a := s.threads[t].call.body[s.threads[t].pc]; a.srcMgr.uri in s.serving && a.dstMgr.uri !in s.serving
    ensures Leads(s, [Act(t), Store(t)], w)
    ensures var a := s.threads[t].call.body[s.threads[t].pc]; w.stores == Write(s.stores, a.srcMgr.uri, a.key, "")
    ensures w.view == s.view && t in w.threads && w.threads[t].Running? && w.threads[t].pc == s.threads[t].pc + 1
  {
    var mid := Next(s, Act(t));
    LeadsOne(s, Act(t));
    LeadsOne(mid, Store(t));
    w := Next(mid, Store(t));
    LeadsOn(s, [Act(t)], mid, [Store(t)], w);
    assert [Act(t)] + [Store(t)] == [Act(t), Store(t)];
  }

  /** A client that dies leaves stores, view and peers as they are, and takes its rules and all
      its calls along, reported or not. */
  lemma {:induction false} ClientDies(s: System, client: string) returns (w: System)
    requires client in s.rules
    ensures Leads(s, [Crash(client)], w) && w == s.(rules := s.rules[client := map[]], threads := w.threads)
    ensures w.threads.Keys == s.threads.Keys
    ensures forall t <- s.threads.Keys :: w.threads[t] == if t.client == client then Idle else s.threads[t]
  {
    LeadsOne(s, Crash(client));
    w := Next(s, Crash(client));
  }
}

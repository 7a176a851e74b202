/** A storage client: the two action interpreters over the managers and the master. */
module Client {
  import opened Messages
  import opened Interpreter
  import opened Resolution
  import opened RuleDatabase
  import opened Master
  import opened Managers

  class StorageClient {
    const ruleDb: RuleDb
    const network: Network
    const master: StorageMaster

    constructor (network: Network, master: StorageMaster)
      ensures this.network == network && this.master == master
      ensures fresh(ruleDb) && ruleDb.rules == map[]
    {
      this.network, this.master := network, master;
      ruleDb := new RuleDb();
    }

    method InstallRule(rule: Rule)
      modifies ruleDb
      ensures ruleDb.rules == old(ruleDb.rules)[RuleKey(rule.key, rule.opType) := rule]
    {
      ruleDb.AddRule(rule);
    }

    method UninstallRule(rule: Rule)
      modifies ruleDb
      ensures ruleDb.rules == old(ruleDb.rules) - {RuleKey(rule.key, rule.opType)}
    {
      ruleDb.RemoveRule(rule);
    }

    /** Runs the installed Get rule by URI and reports its log by name. Without a rule
        the first assertion fails. Reading the last action of an empty rule is undefined. */
    method Get(key: string) returns (reply: Result<string>)
      requires network.Valid()
      requires match Matching(ruleDb.rules, key, GET) case Some(rule) => rule.actions != [] case None => true
      modifies network.managers.Values`store, master.fileView
      ensures match Matching(ruleDb.rules, key, GET)
              case None =>
                && reply == Failure(AssertionFailed)
                && network.Stores() == old(network.Stores())
                && master.fileView.managerViews == old(master.fileView.managerViews)
              case Some(rule) =>
                var out := RunGet(old(network.Stores()), Labels(rule.actions, ByUri), key);
                var log := Labels(GetLog(rule.actions[..|rule.actions| - 1]), ByName);
                && reply == out.reply
                && network.Stores() == out.stores
                && master.fileView.managerViews ==
                     if out.reported then Replay(old(master.fileView.managerViews), log)
                     else old(master.fileView.managerViews)
    {
      var found := ruleDb.HasMatchingRule(key, GET);
      if !found { return Failure(AssertionFailed); }
      var matching := ruleDb.GetMatchingRule(key, GET);
      reply := RunGetRule(matching.value.actions, key);
    }

    method RunGetRule(acts: seq<Action<Manager>>, key: string) returns (reply: Result<string>)
      requires network.Valid() && acts != []
      modifies network.managers.Values`store, master.fileView
      ensures var out := RunGet(old(network.Stores()), Labels(acts, ByUri), key);
              var log := Labels(GetLog(acts[..|acts| - 1]), ByName);
              && reply == out.reply
              && network.Stores() == out.stores
              && master.fileView.managerViews ==
                   if out.reported then Replay(old(master.fileView.managerViews), log)
                   else old(master.fileView.managerViews)
    {
      var n := |acts| - 1;
      ghost var view := master.fileView.managerViews;
      RunGetSplits(network.Stores(), acts, key, ByUri);
      var ok, log := PerformGetActions(acts[..n]);
      assert master.fileView.managerViews == view;
      if !ok { return Failure(AssertionFailed); }
      ghost var st := network.Stores();
      master.StorageChange(log);
      assert network.Stores() == st;
      if !acts[n].GetAction? || acts[n].key != key { return Failure(AssertionFailed); }
      var value := ExecuteGetAction(acts[n].key, acts[n].mgr);
      return Success(value);
    }

    /** The loop over all actions but the last; `ok` is false when an assertion failed. */
    method PerformGetActions(acts: seq<Action<Manager>>) returns (ok: bool, log: seq<Action<Manager>>)
      requires network.Valid()
      modifies network.managers.Values`store
      ensures GetLoop(old(network.Stores()), Labels(acts, ByUri)) == Exec(network.Stores(), ok)
      ensures ok ==> log == GetLog(acts)
    {
      ghost var uris := Labels(acts, ByUri);
      ghost var st := network.Stores();
      log := [];
      for i := 0 to |acts|
        invariant GetLoop(st, uris[..i]) == Exec(network.Stores(), true)
        invariant log == GetLog(acts[..i])
      {
        GetOneMore(st, uris, acts, i);
        match acts[i] {
          case CopyFromAction(actionKey, src, dst) =>
            ExecuteCopyAction(actionKey, src, dst);
            log := log + [acts[i]];
          case RemoveAction(actionKey, mgr) =>
            log := log + [acts[i]];
            ExecuteRemoveAction(actionKey, mgr);
          case NotSet =>
          case GetAction(_, _) =>
            GetLoopStopped(st, uris, i);
            return false, [];
          case PutAction(_, _) =>
            GetLoopStopped(st, uris, i);
            return false, [];
        }
      }
      assert uris[..|acts|] == uris && acts[..|acts|] == acts;
      ok := true;
    }

    /** Runs the installed Put rule by URI; the log is reported only after every
        action passed. */
    method Put(key: string, value: string) returns (reply: Result<()>)
      requires network.Valid()
      modifies network.managers.Values`store, master.fileView
      ensures match Matching(ruleDb.rules, key, PUT)
              case None =>
                && reply == Failure(AssertionFailed)
                && network.Stores() == old(network.Stores())
                && master.fileView.managerViews == old(master.fileView.managerViews)
              case Some(rule) =>
                var out := PutLoop(old(network.Stores()), Labels(rule.actions, ByUri), key, value);
                && reply == (if out.ok then Success(()) else Failure(AssertionFailed))
                && network.Stores() == out.stores
                && master.fileView.managerViews ==
                     if out.ok then Replay(old(master.fileView.managerViews), Labels(PutLog(rule.actions), ByName))
                     else old(master.fileView.managerViews)
    {
      var found := ruleDb.HasMatchingRule(key, PUT);
      if !found { return Failure(AssertionFailed); }
      var matching := ruleDb.GetMatchingRule(key, PUT);
      var ok, log := PerformPutActions(matching.value.actions, key, value);
      if !ok { return Failure(AssertionFailed); }
      master.StorageChange(log);
      return Success(());
    }

    /** The loop over all actions; a Remove falls through into the Put case, with a
        default Put action. */
    method PerformPutActions(acts: seq<Action<Manager>>, key: string, value: string)
      returns (ok: bool, log: seq<Action<Manager>>)
      requires network.Valid()
      modifies network.managers.Values`store, master.fileView
      ensures PutLoop(old(network.Stores()), Labels(acts, ByUri), key, value) == Exec(network.Stores(), ok)
      ensures ok ==> log == PutLog(acts)
      ensures master.fileView.managerViews == old(master.fileView.managerViews)
    {
      ghost var uris := Labels(acts, ByUri);
      ghost var st := network.Stores();
      log := [];
      for i := 0 to |acts|
        invariant PutLoop(st, uris[..i], key, value) == Exec(network.Stores(), true)
        invariant log == PutLog(acts[..i])
        invariant master.fileView.managerViews == old(master.fileView.managerViews)
      {
        PutOneMore(st, uris, acts, i, key, value);
        match acts[i] {
          case CopyFromAction(actionKey, src, dst) =>
            ExecuteCopyAction(actionKey, src, dst);
            log := log + [acts[i]];
          case RemoveAction(actionKey, mgr) =>
            ExecuteRemoveAction(actionKey, mgr);
            if key != "" {
              PutLoopStopped(st, uris, i, key, value);
              return false, [];
            }
            ExecutePutAction(Manager("", ""), key, value);
            log := log + [acts[i], acts[i]];
          case PutAction(actionKey, mgr) =>
            if actionKey != key {
              PutLoopStopped(st, uris, i, key, value);
              return false, [];
            }
            ExecutePutAction(mgr, key, value);
            log := log + [acts[i]];
          case NotSet =>
          case GetAction(_, _) =>
            PutLoopStopped(st, uris, i, key, value);
            return false, [];
        }
      }
      assert uris[..|acts|] == uris && acts[..|acts|] == acts;
      ok := true;
    }

    method ExecuteGetAction(key: string, mgr: Manager) returns (value: string)
      ensures value == Read(network.Stores(), mgr.uri, key)
    {
      value := network.Get(mgr.uri, key);
    }

    method ExecuteCopyAction(key: string, src: Manager, dst: Manager)
      requires network.Valid()
      modifies network.managers.Values`store
      ensures network.Stores() == Write(old(network.Stores()), src.uri, key, Read(old(network.Stores()), dst.uri, key))
    {
      network.CopyFrom(src.uri, dst.uri, key);
    }

    method ExecuteRemoveAction(key: string, mgr: Manager)
      requires network.Valid()
      modifies network.managers.Values`store
      ensures network.Stores() == Erase(old(network.Stores()), mgr.uri, key)
    {
      network.Remove(mgr.uri, key);
    }

    /** Sends the client's whole request, and an empty report that changes nothing. */
    method ExecutePutAction(mgr: Manager, key: string, value: string)
      requires network.Valid()
      modifies network.managers.Values`store, master.fileView
      ensures network.Stores() == Write(old(network.Stores()), mgr.uri, key, value)
      ensures master.fileView.managerViews == old(master.fileView.managerViews)
    {
      network.Put(mgr.uri, key, value);
      master.StorageChange([]);
    }
  }
}

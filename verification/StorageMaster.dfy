/** The storage master: the peers it has met and its view of the managers' files. */
module Master {
  import opened Messages
  import opened Naming
  import opened Interpreter
  import opened Resolution

  datatype Peer = Peer(name: string, rpcUri: string, connectionUri: string)

  class PeerTracker {
    var nameToPeer: map<string, Peer>
    var connectionToPeer: map<string, Peer>

    constructor ()
      ensures nameToPeer == map[] && connectionToPeer == map[]
    {
      nameToPeer, connectionToPeer := map[], map[];
    }

    function Uris(): Peers
      reads this
    {
      map n | n in nameToPeer :: nameToPeer[n].rpcUri
    }

    method AddPeer(name: string, rpcUri: string, connectionUri: string)
      modifies this
      ensures nameToPeer == old(nameToPeer)[name := Peer(name, rpcUri, connectionUri)]
      ensures connectionToPeer == old(connectionToPeer)[connectionUri := Peer(name, rpcUri, connectionUri)]
      ensures Uris() == old(Uris())[name := rpcUri]
    {
      nameToPeer := nameToPeer[name := Peer(name, rpcUri, connectionUri)];
      connectionToPeer := connectionToPeer[connectionUri := nameToPeer[name]];
    }

    method GetPeerFromName(name: string) returns (r: Result<Peer>)
      ensures r.Success? <==> name in Uris()
      ensures r.Success? ==> r.value == nameToPeer[name] && r.value.rpcUri == Uris()[name]
      ensures r.Failure? ==> r.error == OutOfRange
    {
      r := if name in nameToPeer then Success(nameToPeer[name]) else Failure(OutOfRange);
    }

    /** Sets the URI of every view in the reply. */
    method PopulateViewReply(views: seq<ManagerView>) returns (r: Result<seq<ManagerView>>)
      ensures r.Success? <==> forall v <- views :: v.name in Uris()
      ensures r.Success? ==>
        && |r.value| == |views|
        && forall i :: 0 <= i < |views| ==> r.value[i] == views[i].(uri := Uris()[views[i].name])
    {
      var filled := [];
      for i := 0 to |views|
        invariant |filled| == i
        invariant forall j :: 0 <= j < i ==> views[j].name in Uris()
        invariant forall j :: 0 <= j < i ==> filled[j] == views[j].(uri := Uris()[views[j].name])
      {
        var peer := GetPeerFromName(views[i].name);
        if peer.Failure? {
          assert views[i] in views;
          return Failure(OutOfRange);
        }
        filled := filled + [views[i].(uri := peer.value.rpcUri)];
      }
      return Success(filled);
    }
  }

  function Elements(l: seq<string>): set<string> {
    set x | x in l
  }

  /** A list of a set in any order, each element exactly once. */
  method ListInAnyOrder(s: set<string>) returns (l: seq<string>)
    ensures multiset(l) == multiset(s) && Elements(l) == s
  {
    l := [];
    var rest := s;
    while rest != {}
      invariant rest <= s && multiset(l) == multiset(s - rest)
      decreases rest
    {
      var x :| x in rest;
      assert s - (rest - {x}) == (s - rest) + {x};
      l, rest := l + [x], rest - {x};
    }
    assert s - rest == s;
    assert forall x :: x in l <==> x in multiset(l);
  }

  /** The reply lists every manager once, with every key of its view once. */
  ghost predicate ListsView(views: seq<ManagerView>, view: View) {
    && multiset(Names(views)) == multiset(view.Keys)
    && forall i :: 0 <= i < |views| ==>
         views[i].name in view && multiset(views[i].keys) == multiset(view[views[i].name])
  }

  function Names(views: seq<ManagerView>): (names: seq<string>)
    ensures |names| == |views|
  {
    seq(|views|, i requires 0 <= i < |views| => views[i].name)
  }

  class StorageFileView {
    var managerViews: View

    constructor ()
      ensures managerViews == map[]
    {
      managerViews := map[];
    }

    method AddManager(managerName: string)
      modifies this
      ensures managerViews == old(managerViews)[managerName := {}]
    {
      managerViews := managerViews[managerName := {}];
    }

    method AddFileToManager(managerName: string, fileKey: string)
      modifies this
      ensures managerViews == AddFile(old(managerViews), managerName, fileKey)
    {
      if managerName !in managerViews {
        managerViews := managerViews[managerName := {}];
      }
      managerViews := managerViews[managerName := managerViews[managerName] + {fileKey}];
    }

    method RemoveFileFromManager(managerName: string, fileKey: string)
      modifies this
      ensures managerViews == RemoveFile(old(managerViews), managerName, fileKey)
    {
      if managerName !in managerViews {
        managerViews := managerViews[managerName := {}];
      }
      managerViews := managerViews[managerName := managerViews[managerName] - {fileKey}];
    }

    method PopulateViewReply() returns (views: seq<ManagerView>)
      ensures ListsView(views, managerViews)
    {
      views := [];
      var rest := managerViews.Keys;
      while rest != {}
        invariant rest <= managerViews.Keys
        invariant multiset(Names(views)) == multiset(managerViews.Keys - rest)
        invariant forall i :: 0 <= i < |views| ==>
          views[i].name in managerViews && multiset(views[i].keys) == multiset(managerViews[views[i].name])
        decreases rest
      {
        var name :| name in rest;
        var keys := ListInAnyOrder(managerViews[name]);
        assert managerViews.Keys - (rest - {name}) == (managerViews.Keys - rest) + {name};
        ghost var before := views;
        views := views + [ManagerView(name, "", keys)];
        assert Names(views) == Names(before) + [name];
        rest := rest - {name};
      }
      assert managerViews.Keys - rest == managerViews.Keys;
    }
  }

  class StorageMaster {
    const peerTracker: PeerTracker
    const fileView: StorageFileView

    constructor ()
      ensures fresh(peerTracker) && fresh(fileView)
      ensures peerTracker.Uris() == map[] && fileView.managerViews == map[]
    {
      peerTracker := new PeerTracker();
      fileView := new StorageFileView();
    }

    /** A manager's introduction sets its view to exactly the introduced keys, whatever
        was there before; a client's only adds the peer. */
    method Introduce(request: IntroduceRequest, connection: string) returns (name: string)
      modifies peerTracker, fileView
      ensures name == GenerateName(request)
      ensures peerTracker.Uris() ==
              if request.IntroduceNotSet? then old(peerTracker.Uris())
              else old(peerTracker.Uris())[name := HostPort(request.hostname, request.port)]
      ensures fileView.managerViews ==
              if request.ManagerIntroduce? then old(fileView.managerViews)[name := Elements(request.files)]
              else old(fileView.managerViews)
    {
      name := GenerateName(request);
      match request {
        case ManagerIntroduce(_, _, hostname, port, files) =>
          peerTracker.AddPeer(name, HostPort(hostname, port), connection);
          fileView.AddManager(name);
          assert Elements(files[..0]) == {};
          for i := 0 to |files|
            invariant fileView.managerViews == old(fileView.managerViews)[name := Elements(files[..i])]
            invariant peerTracker.Uris() == old(peerTracker.Uris())[name := HostPort(hostname, port)]
          {
            assert Elements(files[..i + 1]) == Elements(files[..i]) + {files[i]};
            fileView.AddFileToManager(name, files[i]);
          }
          assert files[..|files|] == files;
        case ClientIntroduce(hostname, port) =>
          peerTracker.AddPeer(name, HostPort(hostname, port), connection);
        case IntroduceNotSet =>
      }
    }

    method FillInRule(rule: Rule) returns (r: Result<Rule>)
      ensures r == FillIn(peerTracker.Uris(), rule)
    {
      var actions: seq<Action<Manager>> := [];
      for i := 0 to |rule.actions|
        invariant |actions| == i
        invariant AllKnown(peerTracker.Uris(), rule.actions[..i])
        invariant forall j :: 0 <= j < i ==> Known(peerTracker.Uris(), rule.actions[j])
                                             && actions[j] == Resolve(peerTracker.Uris(), rule.actions[j])
      {
        match rule.actions[i] {
          case GetAction(key, mgr) =>
            var p := peerTracker.GetPeerFromName(mgr.name);
            if p.Failure? { return Failure(OutOfRange); }
            actions := actions + [GetAction(key, mgr.(uri := p.value.rpcUri))];
          case CopyFromAction(key, src, dst) =>
            var p := peerTracker.GetPeerFromName(src.name);
            if p.Failure? { return Failure(OutOfRange); }
            var q := peerTracker.GetPeerFromName(dst.name);
            if q.Failure? { return Failure(OutOfRange); }
            actions := actions + [CopyFromAction(key, src.(uri := p.value.rpcUri), dst.(uri := q.value.rpcUri))];
          case RemoveAction(key, mgr) =>
            var p := peerTracker.GetPeerFromName(mgr.name);
            if p.Failure? { return Failure(OutOfRange); }
            actions := actions + [RemoveAction(key, mgr.(uri := p.value.rpcUri))];
          case PutAction(key, mgr) =>
            var p := peerTracker.GetPeerFromName(mgr.name);
            if p.Failure? { return Failure(OutOfRange); }
            actions := actions + [PutAction(key, mgr.(uri := p.value.rpcUri))];
          case NotSet =>
            actions := actions + [NotSet];
        }
      }
      r := Success(rule.(actions := actions));
      assert FillIn(peerTracker.Uris(), rule).value.actions == actions;
    }

    /** Resolves the client and the rule; the result is the URI the rule is sent to
        and the rule that is sent. */
    method InstallRule(client: string, rule: Rule) returns (r: Result<(string, Rule)>)
      ensures r.Success? <==> client in peerTracker.Uris() && AllKnown(peerTracker.Uris(), rule.actions)
      ensures r.Success? ==> r.value == (peerTracker.Uris()[client], FillIn(peerTracker.Uris(), rule).value)
      ensures r.Failure? ==> r.error == OutOfRange
    {
      var p := peerTracker.GetPeerFromName(client);
      if p.Failure? { return Failure(OutOfRange); }
      var filled := FillInRule(rule);
      if filled.Failure? { return Failure(OutOfRange); }
      return Success((p.value.rpcUri, filled.value));
    }

    method StorageChange(changes: seq<Action<Manager>>)
      modifies fileView
      ensures fileView.managerViews == Replay(old(fileView.managerViews), Labels(changes, ByName))
    {
      ghost var log := Labels(changes, ByName);
      for i := 0 to |changes|
        invariant fileView.managerViews == Replay(old(fileView.managerViews), log[..i])
      {
        assert log[..i + 1][..i] == log[..i];
        match changes[i] {
          case CopyFromAction(key, src, dst) =>
            fileView.AddFileToManager(src.name, key);
            fileView.RemoveFileFromManager(dst.name, key);
          case RemoveAction(key, mgr) =>
            fileView.RemoveFileFromManager(mgr.name, key);
          case PutAction(key, mgr) =>
            fileView.AddFileToManager(mgr.name, key);
          case GetAction(_, _) =>
          case NotSet =>
        }
      }
      assert log[..|changes|] == log;
    }

    /** The reply lists the view, each entry with its peer's URI; it fails exactly when
        some manager of the view is no known peer. No client is ever listed. */
    method GetView() returns (r: Result<GetViewReply>)
      ensures r.Success? <==> fileView.managerViews.Keys <= peerTracker.Uris().Keys
      ensures r.Success? ==>
        && r.value.clients == []
        && ListsView(r.value.views, fileView.managerViews)
        && forall v <- r.value.views :: v.name in peerTracker.Uris() && v.uri == peerTracker.Uris()[v.name]
    {
      var views := fileView.PopulateViewReply();
      forall n ensures n in fileView.managerViews <==> exists v <- views :: v.name == n {
        ListedNames(views, fileView.managerViews, n);
      }
      var filled := peerTracker.PopulateViewReply(views);
      if filled.Failure? { return Failure(OutOfRange); }
      assert Names(filled.value) == Names(views);
      return Success(GetViewReply(filled.value, []));
    }
  }

  lemma {:induction false} ListedNames(views: seq<ManagerView>, view: View, n: string)
    requires ListsView(views, view)
    ensures n in view <==> exists v <- views :: v.name == n
  {
    assert n in view.Keys <==> n in multiset(Names(views));
    if n in view {
      var i :| 0 <= i < |views| && Names(views)[i] == n;
      assert views[i] in views;
    }
  }
}

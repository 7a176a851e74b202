/** The master's name resolution inside rules: it fills in URIs, and with one-to-one
    introductions a resolved rule does by URI what the original rule says by name. */
module Resolution {
  import opened Messages
  import opened Interpreter
  import opened ViewGap

  /** Peer name -> RPC URI, as the master tracks them. */
  type Peers = map<string, string>

  datatype Label = ByName | ByUri

  function LabelOf(m: Manager, l: Label): string {
    if l == ByName then m.name else m.uri
  }

  function Labelled(a: Action<Manager>, l: Label): Act {
    match a
    case GetAction(key, mgr) => GetAction(key, LabelOf(mgr, l))
    case CopyFromAction(key, src, dst) => CopyFromAction(key, LabelOf(src, l), LabelOf(dst, l))
    case RemoveAction(key, mgr) => RemoveAction(key, LabelOf(mgr, l))
    case PutAction(key, mgr) => PutAction(key, LabelOf(mgr, l))
    case NotSet => NotSet
  }

  function Labels(acts: seq<Action<Manager>>, l: Label): (r: seq<Act>)
    ensures |r| == |acts|
  {
    seq(|acts|, i requires 0 <= i < |acts| => Labelled(acts[i], l))
  }

  predicate Known(peers: Peers, a: Action<Manager>) {
    match a
    case GetAction(_, mgr) => mgr.name in peers
    case CopyFromAction(_, src, dst) => src.name in peers && dst.name in peers
    case RemoveAction(_, mgr) => mgr.name in peers
    case PutAction(_, mgr) => mgr.name in peers
    case NotSet => true
  }

  function Resolve(peers: Peers, a: Action<Manager>): Action<Manager>
    requires Known(peers, a)
  {
    match a
    case GetAction(key, mgr) => GetAction(key, mgr.(uri := peers[mgr.name]))
    case CopyFromAction(key, src, dst) =>
      CopyFromAction(key, src.(uri := peers[src.name]), dst.(uri := peers[dst.name]))
    case RemoveAction(key, mgr) => RemoveAction(key, mgr.(uri := peers[mgr.name]))
    case PutAction(key, mgr) => PutAction(key, mgr.(uri := peers[mgr.name]))
    case NotSet => NotSet
  }

  predicate AllKnown(peers: Peers, acts: seq<Action<Manager>>) {
    forall i :: 0 <= i < |acts| ==> Known(peers, acts[i])
  }

  /** An unknown name throws, and nothing is installed. */
  function FillIn(peers: Peers, rule: Rule): Result<Rule> {
    if AllKnown(peers, rule.actions) then
      Success(rule.(actions := seq(|rule.actions|,
        i requires 0 <= i < |rule.actions| => Resolve(peers, rule.actions[i]))))
    else
      Failure(OutOfRange)
  }

  /** The action carries the URIs of its names. */
  predicate Coherent1(peers: Peers, a: Action<Manager>) {
    Known(peers, a) && Resolve(peers, a) == a
  }

  predicate Coherent(peers: Peers, acts: seq<Action<Manager>>) {
    forall i :: 0 <= i < |acts| ==> Coherent1(peers, acts[i])
  }

  ghost predicate OneToOne(peers: Peers) {
    forall n, o :: n in peers && o in peers && peers[n] == peers[o] ==> n == o
  }

  /** FillInRule is idempotent, makes the rule coherent, and changes no key,
      operation, action kind or name. */
  lemma {:induction false} FillInChangesOnlyUris(peers: Peers, rule: Rule)
    requires AllKnown(peers, rule.actions)
    ensures var r := FillIn(peers, rule).value;
            && r.opType == rule.opType && r.key == rule.key
            && Labels(r.actions, ByName) == Labels(rule.actions, ByName)
            && Coherent(peers, r.actions)
            && FillIn(peers, r) == Success(r)
  {
    var r := FillIn(peers, rule).value;
    forall i | 0 <= i < |rule.actions|
      ensures Coherent1(peers, r.actions[i]) && Labelled(r.actions[i], ByName) == Labelled(rule.actions[i], ByName)
    {
    }
    assert FillIn(peers, r).value.actions == r.actions;
  }

  // ---- Running by name --------------------------------------------------------

  /** The stores of the tracked managers, by name. */
  function Named(peers: Peers, st: Stores): Stores {
    map n | n in peers && peers[n] in st :: st[peers[n]]
  }

  /** Stores at URIs that no tracked name has. */
  function Unnamed(peers: Peers, st: Stores): Stores {
    map u | u in st && u !in peers.Values :: st[u]
  }

  lemma {:induction false} EffectByName(peers: Peers, st: Stores, a: Action<Manager>, value: string)
    requires OneToOne(peers) && Coherent1(peers, a)
    ensures Named(peers, Effect(st, Labelled(a, ByUri), value)) == Effect(Named(peers, st), Labelled(a, ByName), value)
    ensures Unnamed(peers, Effect(st, Labelled(a, ByUri), value)) == Unnamed(peers, st)
  {
  }

  lemma {:induction false} RunByName(peers: Peers, st: Stores, acts: seq<Action<Manager>>, value: string)
    requires OneToOne(peers) && Coherent(peers, acts)
    ensures Named(peers, Run(st, Labels(acts, ByUri), value)) == Run(Named(peers, st), Labels(acts, ByName), value)
    ensures Unnamed(peers, Run(st, Labels(acts, ByUri), value)) == Unnamed(peers, st)
  {
    if acts != [] {
      var before := acts[..|acts| - 1];
      RunByName(peers, st, before, value);
      LabelsOfPrefix(acts, |acts| - 1, ByUri);
      LabelsOfPrefix(acts, |acts| - 1, ByName);
      EffectByName(peers, Run(st, Labels(before, ByUri), value), acts[|acts| - 1], value);
    }
  }

  lemma {:induction false} LabelsOfPrefix(acts: seq<Action<Manager>>, n: nat, l: Label)
    requires n <= |acts|
    ensures Labels(acts, l)[..n] == Labels(acts[..n], l)
  {
  }

  lemma {:induction false} LabelsKeepSteps(acts: seq<Action<Manager>>, key: string, l: Label)
    ensures GetSteps(Labels(acts, l)) <==> GetSteps(acts)
    ensures PutSteps(Labels(acts, l), key) <==> PutSteps(acts, key)
  {
    assert forall i :: 0 <= i < |acts| ==> (GetStep(Labels(acts, l)[i]) <==> GetStep(acts[i]));
    assert forall i :: 0 <= i < |acts| ==> (PutStep(Labels(acts, l)[i], key) <==> PutStep(acts[i], key));
  }

  lemma {:induction false} LabelsKeepExecutable(acts: seq<Action<Manager>>, key: string, l: Label)
    ensures GetExecutable(Labels(acts, l), key) <==> GetExecutable(acts, key)
  {
    if acts != [] {
      LabelsOfPrefix(acts, |acts| - 1, l);
      LabelsKeepSteps(acts[..|acts| - 1], key, l);
    }
  }

  lemma {:induction false} LogOfLabels(acts: seq<Action<Manager>>, l: Label)
    ensures Labels(GetLog(acts), l) == GetLog(Labels(acts, l))
  {
    if acts != [] {
      var n := |acts| - 1;
      LogOfLabels(acts[..n], l);
      LabelsOfPrefix(acts, n, l);
      assert Labels(acts, l)[n] == Labelled(acts[n], l);
    }
  }

  lemma {:induction false} PutLogOfLabels(acts: seq<Action<Manager>>, l: Label)
    ensures Labels(PutLog(acts), l) == PutLog(Labels(acts, l))
  {
    if acts != [] {
      var n := |acts| - 1;
      PutLogOfLabels(acts[..n], l);
      LabelsOfPrefix(acts, n, l);
      assert Labels(PutLogged(acts[n]), l) == PutLogged(Labelled(acts[n], l));
    }
  }

  lemma {:induction false} ReadByName(peers: Peers, st: Stores, m: Manager, key: string)
    requires m.name in peers && m.uri == peers[m.name]
    ensures Read(st, m.uri, key) == Read(Named(peers, st), m.name, key)
  {
  }

  /** A labelled Get, read off the loop over its body and its last action. */
  lemma {:induction false} RunGetSplits(st: Stores, acts: seq<Action<Manager>>, key: string, l: Label)
    requires acts != []
    ensures var e, last := GetLoop(st, Labels(acts[..|acts| - 1], l)), acts[|acts| - 1];
            RunGet(st, Labels(acts, l), key) ==
              if !e.ok then GetOutcome(e.stores, false, Failure(AssertionFailed))
              else if !last.GetAction? || last.key != key then GetOutcome(e.stores, true, Failure(AssertionFailed))
              else GetOutcome(e.stores, true, Success(Read(e.stores, LabelOf(last.mgr, l), key)))
  {
    LabelsOfPrefix(acts, |acts| - 1, l);
  }

  lemma {:induction false} GetLoopByName(peers: Peers, st: Stores, acts: seq<Action<Manager>>)
    requires OneToOne(peers) && Coherent(peers, acts)
    ensures var actual, meant := GetLoop(st, Labels(acts, ByUri)), GetLoop(Named(peers, st), Labels(acts, ByName));
            && actual.ok == meant.ok && Named(peers, actual.stores) == meant.stores
            && Unnamed(peers, actual.stores) == Unnamed(peers, st)
  {
    if acts != [] {
      var n := |acts| - 1;
      GetLoopByName(peers, st, acts[..n]);
      LabelsOfPrefix(acts, n, ByUri);
      LabelsOfPrefix(acts, n, ByName);
      assert Coherent1(peers, acts[n]);
      EffectByName(peers, GetLoop(st, Labels(acts[..n], ByUri)).stores, acts[n], "");
    }
  }

  lemma {:induction false} PutBodyByName(peers: Peers, st: Stores, a: Action<Manager>, key: string, value: string)
    requires OneToOne(peers) && Coherent1(peers, a) && "" !in st && "" !in peers
    ensures var actual := PutBody(st, Labelled(a, ByUri), key, value);
            var meant := PutBody(Named(peers, st), Labelled(a, ByName), key, value);
            && actual.ok == meant.ok && Named(peers, actual.stores) == meant.stores
            && Unnamed(peers, actual.stores) == Unnamed(peers, st) && actual.stores.Keys == st.Keys
  {
    EffectByName(peers, st, a, value);
  }

  lemma {:induction false} PutLoopByName(peers: Peers, st: Stores, acts: seq<Action<Manager>>, key: string,
                                         value: string)
    requires OneToOne(peers) && Coherent(peers, acts) && "" !in st && "" !in peers
    ensures var actual := PutLoop(st, Labels(acts, ByUri), key, value);
            var meant := PutLoop(Named(peers, st), Labels(acts, ByName), key, value);
            && actual.ok == meant.ok && Named(peers, actual.stores) == meant.stores
            && Unnamed(peers, actual.stores) == Unnamed(peers, st) && actual.stores.Keys == st.Keys
  {
    if acts != [] {
      var n := |acts| - 1;
      PutLoopByName(peers, st, acts[..n], key, value);
      LabelsOfPrefix(acts, n, ByUri);
      LabelsOfPrefix(acts, n, ByName);
      assert Coherent1(peers, acts[n]);
      PutBodyByName(peers, PutLoop(st, Labels(acts[..n], ByUri), key, value).stores, acts[n], key, value);
    }
  }

  lemma {:induction false} CoherentGetByName(peers: Peers, st: Stores, acts: seq<Action<Manager>>, key: string)
    requires OneToOne(peers) && Coherent(peers, acts) && acts != []
    ensures var actual := RunGet(st, Labels(acts, ByUri), key);
            var meant := RunGet(Named(peers, st), Labels(acts, ByName), key);
            && actual.reply == meant.reply && actual.reported == meant.reported
            && Named(peers, actual.stores) == meant.stores
            && Unnamed(peers, actual.stores) == Unnamed(peers, st)
  {
    var body, last := acts[..|acts| - 1], acts[|acts| - 1];
    RunGetSplits(st, acts, key, ByUri);
    RunGetSplits(Named(peers, st), acts, key, ByName);
    GetLoopByName(peers, st, body);
    assert Coherent1(peers, last);
    if last.GetAction? {
      ReadByName(peers, GetLoop(st, Labels(body, ByUri)).stores, last.mgr, key);
    }
  }

  /** Name resolution preserves meaning for Get: the installed rule, run by URI, does to
      the stores what the original rule does by name, returns the same value or fails in the
      same case with the same partial effects, and reaches no store without a name. */
  lemma {:induction false} ResolvedGetMeansNamedGet(peers: Peers, st: Stores, rule: Rule, key: string)
    requires OneToOne(peers) && AllKnown(peers, rule.actions) && rule.actions != []
    ensures var installed := FillIn(peers, rule).value;
            var actual := RunGet(st, Labels(installed.actions, ByUri), key);
            var meant := RunGet(Named(peers, st), Labels(rule.actions, ByName), key);
            && actual.reply == meant.reply && actual.reported == meant.reported
            && Named(peers, actual.stores) == meant.stores
            && Unnamed(peers, actual.stores) == Unnamed(peers, st)
  {
    FillInChangesOnlyUris(peers, rule);
    CoherentGetByName(peers, st, FillIn(peers, rule).value.actions, key);
  }

  /** The same for Put. */
  lemma {:induction false} ResolvedPutMeansNamedPut(peers: Peers, st: Stores, rule: Rule, key: string, value: string)
    requires OneToOne(peers) && AllKnown(peers, rule.actions)
    requires "" !in st && "" !in peers
    ensures var installed := FillIn(peers, rule).value;
            var actual := PutLoop(st, Labels(installed.actions, ByUri), key, value);
            var meant := PutLoop(Named(peers, st), Labels(rule.actions, ByName), key, value);
            && actual.ok == meant.ok
            && Named(peers, actual.stores) == meant.stores
            && Unnamed(peers, actual.stores) == Unnamed(peers, st)
  {
    FillInChangesOnlyUris(peers, rule);
    PutLoopByName(peers, st, FillIn(peers, rule).value.actions, key, value);
  }

  /** Two names of one running manager are told apart by the view but not by the
      stores: a resolved Remove at one of them erases the other's key too. */
  lemma {:induction false} SharedUriBreaksMeaning(peers: Peers, st: Stores, n: string, o: string, key: string)
    requires n in peers && o in peers && n != o && peers[n] == peers[o] && Stored(st, peers[o], key)
    ensures var remove := RemoveAction(key, Manager(n, peers[n]));
            && Coherent1(peers, remove)
            && Stored(Effect(Named(peers, st), Labelled(remove, ByName), ""), o, key)
            && !Stored(Named(peers, Effect(st, Labelled(remove, ByUri), "")), o, key)
  {
  }

  /** Resolving the action's names keeps what it means, whatever the stores. */
  ghost predicate KeepsMeaning(peers: Peers, a: Action<Manager>) {
    forall st, value ::
      Named(peers, Effect(st, Labelled(a, ByUri), value)) == Effect(Named(peers, st), Labelled(a, ByName), value)
  }

  /** Name resolution preserves meaning for every resolved action exactly when the
      introductions were one-to-one. */
  lemma {:induction false} MeaningKeptIffOneToOne(peers: Peers)
    ensures (forall a :: Coherent1(peers, a) ==> KeepsMeaning(peers, a)) <==> OneToOne(peers)
  {
    if OneToOne(peers) {
      forall a, st, value | Coherent1(peers, a)
        ensures Named(peers, Effect(st, Labelled(a, ByUri), value))
                == Effect(Named(peers, st), Labelled(a, ByName), value)
      {
        EffectByName(peers, st, a, value);
      }
    } else {
      var n, o :| n in peers && o in peers && peers[n] == peers[o] && n != o;
      var st: Stores := map[peers[o] := map["key" := ""]];
      SharedUriBreaksMeaning(peers, st, n, o, "key");
      assert !KeepsMeaning(peers, RemoveAction("key", Manager(n, peers[n])));
    }
  }

  predicate Mentions(a: Action<Manager>, name: string) {
    match a
    case GetAction(_, mgr) => mgr.name == name
    case CopyFromAction(_, src, dst) => src.name == name || dst.name == name
    case RemoveAction(_, mgr) => mgr.name == name
    case PutAction(_, mgr) => mgr.name == name
    case NotSet => false
  }

  /** An installed rule keeps the URIs of its names across an introduction exactly when
      the name is met at the URI it had, or the rule does not mention it. */
  lemma {:induction false} MeetingKeepsRuleIff(peers: Peers, name: string, uri: string, acts: seq<Action<Manager>>)
    requires name in peers && Coherent(peers, acts)
    ensures Coherent(peers[name := uri], acts) <==>
            peers[name] == uri || forall i :: 0 <= i < |acts| ==> !Mentions(acts[i], name)
  {
    forall i | 0 <= i < |acts|
      ensures Coherent1(peers[name := uri], acts[i]) <==> peers[name] == uri || !Mentions(acts[i], name)
    {
      assert Coherent1(peers, acts[i]);
    }
  }

  /** The master's replay and the stores of the names, after a resolved action was performed
      and its name n had meanwhile moved to another URI. */
  ghost predicate StaysSound(peers: Peers, view: View, st: Stores, n: string, uri: string,
                             a: Action<Manager>, value: string)
  {
    Sound(Replay1(view, Labelled(a, ByName)), Named(peers[n := uri], Effect(st, Labelled(a, ByUri), value)))
  }

  /** A name met again at another URI (two managers of one kind on one host get the same
      name) leaves installed rules behind. A Put by such a rule lands at the old URI and is
      reported under the name: the view stays sound exactly when the name did not really
      move or the key is stored at the new URI anyway. */
  lemma {:induction false} StalePutIsSoundIff(peers: Peers, view: View, st: Stores, n: string, uri: string,
                                              key: string, value: string)
    requires n in peers && uri in st && Sound(view, Named(peers[n := uri], st))
    ensures var put := PutAction(key, Manager(n, peers[n]));
            && Coherent1(peers, put)
            && (StaysSound(peers, view, st, n, uri, put, value) <==>
                  uri == peers[n] || key in st[uri])
  {
    var put, peers' := PutAction(key, Manager(n, peers[n])), peers[n := uri];
    var view', st' := Replay1(view, Labelled(put, ByName)), Effect(st, Labelled(put, ByUri), value);
    assert InView(view', n, key);
    forall m, k | InView(view', m, k) && (m, k) != (n, key) ensures Stored(Named(peers', st'), m, k) {
      assert InView(view, m, k) && Stored(Named(peers', st), m, k);
    }
  }

  /** A stale Remove erases at the old URI: the view stays sound exactly when it claims the
      key for no other name met there. */
  lemma {:induction false} StaleRemoveIsSoundIff(peers: Peers, view: View, st: Stores, n: string, uri: string,
                                                 key: string)
    requires n in peers && uri in st && Sound(view, Named(peers[n := uri], st))
    ensures var remove := RemoveAction(key, Manager(n, peers[n]));
            && Coherent1(peers, remove)
            && (StaysSound(peers, view, st, n, uri, remove, "") <==>
                  forall o <- peers.Keys :: o != n && peers[o] == peers[n] ==> !InView(view, o, key))
  {
    var remove, peers' := RemoveAction(key, Manager(n, peers[n])), peers[n := uri];
    var view', st' := Replay1(view, Labelled(remove, ByName)), Effect(st, Labelled(remove, ByUri), "");
    forall o | o in peers && o != n && peers[o] == peers[n] && InView(view, o, key)
      ensures !Sound(view', Named(peers', st'))
    {
      assert InView(view', o, key) && !Stored(Named(peers', st'), o, key);
    }
    forall m, k | InView(view', m, k) && !Stored(Named(peers', st'), m, k)
      ensures k == key && m != n && m in peers && peers[m] == peers[n]
    {
      assert InView(view, m, k) && Stored(Named(peers', st), m, k);
    }
  }

  /** A stale Copy pulls to the old URI of its source: the view stays sound exactly when the
      source did not really move, or the key is stored at its new URI anyway, or the copy is
      onto itself. A stale destination does no harm. */
  lemma {:induction false} StaleCopyIsSoundIff(peers: Peers, view: View, st: Stores, n: string, uri: string,
                                               key: string, src: string, dst: string)
    requires n in peers && src in peers && dst in peers && uri in st && (src == n || peers[src] in st)
    requires Sound(view, Named(peers[n := uri], st))
    ensures var copy := CopyFromAction(key, Manager(src, peers[src]), Manager(dst, peers[dst]));
            && Coherent1(peers, copy)
            && (StaysSound(peers, view, st, n, uri, copy, "") <==>
                  src != n || src == dst || uri == peers[n] || key in st[uri])
  {
    var copy, peers' := CopyFromAction(key, Manager(src, peers[src]), Manager(dst, peers[dst])), peers[n := uri];
    var view', st' := Replay1(view, Labelled(copy, ByName)), Effect(st, Labelled(copy, ByUri), "");
    assert src != dst ==> InView(view', src, key);
    assert InView(view', src, key) ==> src != dst;
    forall m, k | InView(view', m, k) && (m, k) != (src, key) ensures Stored(Named(peers', st'), m, k) {
      assert InView(view, m, k) && Stored(Named(peers', st), m, k);
    }
  }

  /** The soundness of the view by name survives a resolved Get rule that names running
      managers only. */
  lemma {:induction false} ResolvedGetKeepsViewSound(peers: Peers, view: View, st: Stores, rule: Rule, key: string)
    requires OneToOne(peers) && AllKnown(peers, rule.actions) && GetExecutable(rule.actions, key)
    requires Present(Labels(rule.actions, ByName), Named(peers, st).Keys)
    requires Sound(view, Named(peers, st))
    ensures var acts := FillIn(peers, rule).value.actions;
            var log := Labels(GetLog(acts[..|acts| - 1]), ByName);
            Sound(Replay(view, log), Named(peers, RunGet(st, Labels(acts, ByUri), key).stores))
  {
    var acts, named := FillIn(peers, rule).value.actions, Labels(rule.actions, ByName);
    var n := |rule.actions| - 1;
    ResolvedGetMeansNamedGet(peers, st, rule, key);
    FillInChangesOnlyUris(peers, rule);
    LogByName(acts, n);
    LabelsKeepExecutable(rule.actions, key, ByName);
    NamedGetKeepsViewSound(view, Named(peers, st), named, key);
  }

  lemma {:induction false} LogByName(acts: seq<Action<Manager>>, n: nat)
    requires n <= |acts|
    ensures Labels(GetLog(acts[..n]), ByName) == GetLog(Labels(acts, ByName)[..n])
  {
    LabelsOfPrefix(acts, n, ByName);
    LogOfLabels(acts[..n], ByName);
  }

  lemma {:induction false} NamedGetKeepsViewSound(view: View, st: Stores, acts: seq<Act>, key: string)
    requires GetExecutable(acts, key) && Present(acts, st.Keys) && Sound(view, st)
    ensures Sound(Replay(view, GetLog(acts[..|acts| - 1])), RunGet(st, acts, key).stores)
  {
    var body := acts[..|acts| - 1];
    GetReturnsIff(st, acts, key, "");
    GetLogReplays(view, body);
    SoundAfter(view, st, body, "");
  }
}

/** What a client reads back: rules checked against the master's view only move
    values, they never lose or replace them. */
module DataSafety {
  import opened Messages
  import opened Interpreter
  import opened ViewGap

  ghost predicate AllCopies(st: Stores, k: string, v: string) {
    forall m :: Stored(st, m, k) ==> st[m][k] == v
  }

  /** Replaying the actions on the view finds the destination of every Copy of k present. */
  predicate CopiesChecked(view: View, acts: seq<Act>, k: string) {
    acts == [] ||
    var before, last := acts[..|acts| - 1], acts[|acts| - 1];
    && CopiesChecked(view, before, k)
    && (last.CopyFromAction? && last.key == k ==> InView(Replay(view, before), last.dstMgr, k))
  }

  predicate GetChecked(view: View, acts: seq<Act>, key: string) {
    && GetExecutable(acts, key)
    && CopiesChecked(view, acts[..|acts| - 1], key)
    && InView(Replay(view, acts[..|acts| - 1]), acts[|acts| - 1].mgr, key)
  }

  /** The check is what a Copy needs: the common value survives it exactly when its
      destination really holds the key, or the value is the empty one that a missing
      key reads as. */
  lemma {:induction false} CopyKeepsValueIff(st: Stores, src: string, dst: string, k: string, v: string)
    requires AllCopies(st, k, v) && src in st
    ensures AllCopies(Effect(st, CopyFromAction(k, src, dst), ""), k, v) <==> Stored(st, dst, k) || v == ""
  {
    var after := Effect(st, CopyFromAction(k, src, dst), "");
    assert Stored(after, src, k) && after[src][k] == Read(st, dst, k);
  }

  lemma {:induction false} CheckedStepsKeepValue(view: View, st: Stores, acts: seq<Act>, k: string, v: string)
    requires Sound(view, st) && Present(acts, st.Keys) && AllCopies(st, k, v)
    requires GetSteps(acts) && CopiesChecked(view, acts, k)
    ensures AllCopies(Run(st, acts, ""), k, v)
  {
    if acts != [] {
      var before, last := acts[..|acts| - 1], acts[|acts| - 1];
      CheckedStepsKeepValue(view, st, before, k, v);
      SoundAfter(view, st, before, "");
      RunKeepsAddresses(st, before, "");
      if last.CopyFromAction? && last.key == k {
        CopyKeepsValueIff(Run(st, before, ""), last.srcMgr, last.dstMgr, k, v);
      }
    }
  }

  /** A Get for any key whose copies of k are checked keeps k's common value. */
  lemma {:induction false} CheckedGetKeepsValue(view: View, st: Stores, acts: seq<Act>, key: string, k: string,
                                                v: string)
    requires Sound(view, st) && AllCopies(st, k, v)
    requires GetExecutable(acts, key) && Present(acts, st.Keys)
    requires CopiesChecked(view, acts[..|acts| - 1], k)
    ensures var out := RunGet(st, acts, key);
            && out.reported && out.stores.Keys == st.Keys
            && AllCopies(out.stores, k, v)
            && Sound(Replay(view, GetLog(acts[..|acts| - 1])), out.stores)
  {
    var body := acts[..|acts| - 1];
    GetReturnsIff(st, acts, key, "");
    CheckedStepsKeepValue(view, st, body, k, v);
    SoundAfter(view, st, body, "");
    RunKeepsAddresses(st, body, "");
    GetLogReplays(view, body);
  }

  /** Checking a Get rule on the view is sound for the data: the real run returns the
      common value, every copy left still has it, and the reported view is sound again. */
  lemma {:induction false} CheckedGetReturnsValue(view: View, st: Stores, acts: seq<Act>, key: string, v: string)
    requires Sound(view, st) && AllCopies(st, key, v)
    requires GetChecked(view, acts, key) && Present(acts, st.Keys)
    ensures var out := RunGet(st, acts, key);
            && out.reply == Success(v)
            && AllCopies(out.stores, key, v)
            && Sound(Replay(view, GetLog(acts[..|acts| - 1])), out.stores)
  {
    var body := acts[..|acts| - 1];
    CheckedGetKeepsValue(view, st, acts, key, key, v);
    GetReturnsIff(st, acts, key, "");
    GetLogReplays(view, body);
    assert InView(Replay(view, body), acts[|acts| - 1].mgr, key);
  }

  // ---- What the view lists ------------------------------------------------------

  /** The value of every copy the view lists; other copies, left behind by a Copy without a
      Remove, may hold anything. */
  ghost predicate ListedCopies(view: View, st: Stores, k: string, v: string) {
    forall m :: InView(view, m, k) ==> Stored(st, m, k) && st[m][k] == v
  }

  lemma {:induction false} ListedStepsKeepValue(view: View, st: Stores, acts: seq<Act>, k: string, v: string)
    requires ListedCopies(view, st, k, v) && Present(acts, st.Keys)
    requires GetSteps(acts) && CopiesChecked(view, acts, k)
    ensures ListedCopies(Replay(view, acts), Run(st, acts, ""), k, v)
  {
    if acts != [] {
      ListedStepsKeepValue(view, st, acts[..|acts| - 1], k, v);
      RunKeepsAddresses(st, acts[..|acts| - 1], "");
    }
  }

  /** A Get for any key whose copies of k are checked keeps the value of k's listed copies;
      a checked Get for k returns it, whatever unlisted copies hold. */
  lemma {:induction false} ListedGetReturnsValue(view: View, st: Stores, acts: seq<Act>, key: string, k: string,
                                                 v: string)
    requires ListedCopies(view, st, k, v)
    requires GetExecutable(acts, key) && Present(acts, st.Keys)
    requires CopiesChecked(view, acts[..|acts| - 1], k)
    ensures var out := RunGet(st, acts, key);
            && out.reported && out.stores.Keys == st.Keys
            && ListedCopies(Replay(view, GetLog(acts[..|acts| - 1])), out.stores, k, v)
            && (key == k && GetChecked(view, acts, k) ==> out.reply == Success(v))
  {
    var body := acts[..|acts| - 1];
    GetReturnsIff(st, acts, key, "");
    ListedStepsKeepValue(view, st, body, k, v);
    RunKeepsAddresses(st, body, "");
    GetLogReplays(view, body);
    assert key == k && GetChecked(view, acts, k) ==> InView(Replay(view, body), acts[|acts| - 1].mgr, k);
  }

  // ---- Sessions of Gets -------------------------------------------------------

  datatype GetCall = GetCall(key: string, acts: seq<Act>) {
    function Body(): seq<Act>
      requires acts != []
    {
      acts[..|acts| - 1]
    }
  }

  /** The stores, the master's view and the replies after a sequence of Get calls. */
  datatype Session = Session(stores: Stores, view: View, replies: seq<Result<string>>)

  ghost predicate Runnable(calls: seq<GetCall>, addresses: set<string>) {
    forall i :: 0 <= i < |calls| ==>
      GetExecutable(calls[i].acts, calls[i].key) && Present(calls[i].acts, addresses)
  }

  function ViewAfterGet(st: Stores, view: View, call: GetCall): View
    requires call.acts != []
  {
    if RunGet(st, call.acts, call.key).reported then Replay(view, GetLog(call.Body())) else view
  }

  function RunGets(st: Stores, view: View, calls: seq<GetCall>): Session
    requires forall i :: 0 <= i < |calls| ==> calls[i].acts != []
    decreases |calls|
  {
    if calls == [] then Session(st, view, [])
    else
      var out := RunGet(st, calls[0].acts, calls[0].key);
      var rest := RunGets(out.stores, ViewAfterGet(st, view, calls[0]), calls[1..]);
      rest.(replies := [out.reply] + rest.replies)
  }

  /** Every call's copies of k are checked on the view of its time, and so is the
      final Get of the calls for k itself. */
  ghost predicate SessionChecked(st: Stores, view: View, calls: seq<GetCall>, k: string)
    requires forall i :: 0 <= i < |calls| ==> calls[i].acts != []
    decreases |calls|
  {
    calls != [] ==>
      && CopiesChecked(view, calls[0].Body(), k)
      && (calls[0].key == k ==> GetChecked(view, calls[0].acts, k))
      && SessionChecked(RunGet(st, calls[0].acts, calls[0].key).stores,
                        ViewAfterGet(st, view, calls[0]), calls[1..], k)
  }

  /** Over any sequence of Gets, the checked ones for k return the value of its listed copies. */
  lemma {:induction false} SessionReturnsValue(st: Stores, view: View, calls: seq<GetCall>, k: string, v: string)
    requires ListedCopies(view, st, k, v) && Runnable(calls, st.Keys)
    requires SessionChecked(st, view, calls, k)
    ensures var s := RunGets(st, view, calls);
            && ListedCopies(s.view, s.stores, k, v)
            && |s.replies| == |calls|
            && forall i :: 0 <= i < |calls| && calls[i].key == k ==> s.replies[i] == Success(v)
    decreases |calls|
  {
    if calls != [] {
      var call := calls[0];
      ListedGetReturnsValue(view, st, call.acts, call.key, k, v);
      SessionReturnsValue(RunGet(st, call.acts, call.key).stores, ViewAfterGet(st, view, call), calls[1..], k, v);
    }
  }

  lemma {:induction false} SessionKeepsCopies(st: Stores, view: View, calls: seq<GetCall>, k: string, v: string)
    requires Sound(view, st) && AllCopies(st, k, v) && Runnable(calls, st.Keys)
    requires SessionChecked(st, view, calls, k)
    ensures var s := RunGets(st, view, calls); Sound(s.view, s.stores) && AllCopies(s.stores, k, v)
    decreases |calls|
  {
    if calls != [] {
      var call := calls[0];
      CheckedGetKeepsValue(view, st, call.acts, call.key, k, v);
      SessionKeepsCopies(RunGet(st, call.acts, call.key).stores, ViewAfterGet(st, view, call), calls[1..], k, v);
    }
  }

  // ---- Puts -------------------------------------------------------------------

  /** Where a manager's value for a key comes from after a Put rule. */
  datatype Origin = ThePut | Before(manager: string) | Nowhere

  /** A copy hands the origin on from its destination to its source. */
  function OriginOf(acts: seq<Act>, k: string, m: string): Origin {
    if acts == [] then Before(m)
    else
      var before := acts[..|acts| - 1];
      match acts[|acts| - 1]
      case CopyFromAction(key, src, dst) => OriginOf(before, k, if key == k && src == m then dst else m)
      case RemoveAction(key, mgr) => if key == k && mgr == m then Nowhere else OriginOf(before, k, m)
      case PutAction(key, mgr) => if key == k && mgr == m then ThePut else OriginOf(before, k, m)
      case GetAction(_, _) => OriginOf(before, k, m)
      case NotSet => OriginOf(before, k, m)
  }

  function ValueFrom(o: Origin, st: Stores, k: string, value: string): string {
    match o
    case ThePut => value
    case Before(m) => Read(st, m, k)
    case Nowhere => ""
  }

  lemma {:induction false} ReadIsFromOrigin(st: Stores, acts: seq<Act>, k: string, value: string, m: string)
    requires Present(acts, st.Keys)
    ensures Read(Run(st, acts, value), m, k) == ValueFrom(OriginOf(acts, k, m), st, k, value)
    ensures OriginOf(acts, k, m) == ThePut ==> Stored(Run(st, acts, value), m, k)
  {
    if acts != [] {
      var before, last := acts[..|acts| - 1], acts[|acts| - 1];
      RunKeepsAddresses(st, before, value);
      ReadIsFromOrigin(st, before, k, value, m);
      if last.CopyFromAction? { ReadIsFromOrigin(st, before, k, value, last.dstMgr); }
    }
  }

  ghost predicate Covered(st: Stores, acts: seq<Act>, k: string) {
    forall m :: Stored(st, m, k) ==> OriginOf(acts, k, m) == ThePut
  }

  /** A Put makes its value the only one exactly when every copy left comes from the Put, or
      from a manager that had the very value before, or from a missing key while the value
      is empty. Covering all copies left by the Put is enough, and for a non-empty value not
      stored before it is also necessary. */
  lemma {:induction false} PutUnifiesIff(st: Stores, acts: seq<Act>, key: string, value: string)
    requires PutSteps(acts, key) && Present(acts, st.Keys) && "" !in st
    ensures var after := PutLoop(st, acts, key, value).stores;
            && (AllCopies(after, key, value) <==>
                  forall m :: Stored(after, m, key) ==> ValueFrom(OriginOf(acts, key, m), st, key, value) == value)
            && (Covered(after, acts, key) ==> AllCopies(after, key, value))
            && (value != "" && (forall m :: Stored(st, m, key) ==> st[m][key] != value) ==>
                  (AllCopies(after, key, value) <==> Covered(after, acts, key)))
  {
    PutReturnsIff(st, acts, key, value);
    var after := Run(st, acts, value);
    forall m | Stored(after, m, key) ensures after[m][key] == ValueFrom(OriginOf(acts, key, m), st, key, value) {
      ReadIsFromOrigin(st, acts, key, value, m);
    }
  }

  /** Every copy the view lists after the Put comes from the Put: this is decided by the
      rule and the view alone. */
  ghost predicate ListedCovered(view: View, acts: seq<Act>, k: string) {
    forall m :: InView(Replay(view, acts), m, k) ==> OriginOf(acts, k, m) == ThePut
  }

  lemma {:induction false} PutSetsListed(st: Stores, view: View, acts: seq<Act>, key: string, value: string)
    requires PutSteps(acts, key) && Present(acts, st.Keys) && "" !in st && ListedCovered(view, acts, key)
    ensures ListedCopies(Replay(view, PutLog(acts)), PutLoop(st, acts, key, value).stores, key, value)
    ensures PutLoop(st, acts, key, value).stores.Keys == st.Keys
  {
    PutReturnsIff(st, acts, key, value);
    PutLogReplays(view, acts, key);
    RunKeepsAddresses(st, acts, value);
    forall m | InView(Replay(view, acts), m, key)
      ensures Stored(Run(st, acts, value), m, key) && Run(st, acts, value)[m][key] == value
    {
      ReadIsFromOrigin(st, acts, key, value, m);
    }
  }

  /** Put then Get: after a Put that covers the copies listed in the view, every later
      view-checked Get returns its value, whatever moves between managers the rules make and
      whatever unlisted copies hold. If the Put covers all copies of a sound view's stores,
      its value even stays the only one. */
  lemma {:induction false} PutThenGets(st: Stores, view: View, acts: seq<Act>, key: string, value: string,
                                       calls: seq<GetCall>)
    requires PutSteps(acts, key) && Present(acts, st.Keys) && "" !in st && ListedCovered(view, acts, key)
    requires Runnable(calls, st.Keys)
    requires SessionChecked(PutLoop(st, acts, key, value).stores, Replay(view, PutLog(acts)), calls, key)
    ensures var after := PutLoop(st, acts, key, value).stores;
            var s := RunGets(after, Replay(view, PutLog(acts)), calls);
            && ListedCopies(s.view, s.stores, key, value) && |s.replies| == |calls|
            && (forall i :: 0 <= i < |calls| && calls[i].key == key ==> s.replies[i] == Success(value))
            && (Sound(view, st) && Covered(after, acts, key) ==>
                  Sound(s.view, s.stores) && AllCopies(s.stores, key, value))
  {
    var after := PutLoop(st, acts, key, value).stores;
    PutSetsListed(st, view, acts, key, value);
    SessionReturnsValue(after, Replay(view, PutLog(acts)), calls, key, value);
    if Sound(view, st) && Covered(after, acts, key) {
      PutReturnsIff(st, acts, key, value);
      PutLogReplays(view, acts, key);
      SoundAfter(view, st, acts, value);
      PutUnifiesIff(st, acts, key, value);
      SessionKeepsCopies(after, Replay(view, PutLog(acts)), calls, key, value);
    }
  }

  /** In a sound view the cover of all copies is a cover of the listed ones. */
  lemma {:induction false} CoveredIsListedCovered(st: Stores, view: View, acts: seq<Act>, key: string, value: string)
    requires Sound(view, st) && PutSteps(acts, key) && Present(acts, st.Keys) && "" !in st
    requires Covered(PutLoop(st, acts, key, value).stores, acts, key)
    ensures ListedCovered(view, acts, key)
  {
    PutReturnsIff(st, acts, key, value);
    SoundAfter(view, st, acts, value);
  }
}

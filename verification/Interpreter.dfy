/** What the client's two action interpreters do to the managers' stores, what they
    log, and how the master replays a log on its file view.

    Managers are addressed by plain strings here: by URI when a client runs a
    resolved rule, by name when the master replays the log. */
module Interpreter {
  import opened Messages

  /** Address -> key -> value, for the running managers. */
  type Stores = map<string, map<string, string>>

  /** Address -> keys, as the master believes them to be. */
  type View = map<string, set<string>>

  type Act = Action<string>

  // ---- The stores -----------------------------------------------------------

  predicate Stored(st: Stores, at: string, key: string) {
    at in st && key in st[at]
  }

  /** A Get whose status is ignored: a missing key reads as the empty value. */
  function Read(st: Stores, at: string, key: string): string {
    if Stored(st, at, key) then st[at][key] else ""
  }

  function Write(st: Stores, at: string, key: string, value: string): Stores {
    if at in st then st[at := st[at][key := value]] else st
  }

  function Erase(st: Stores, at: string, key: string): Stores {
    if at in st then st[at := st[at] - {key}] else st
  }

  /** The source manager of a copy pulls the value from the destination manager;
      both keep it. */
  function Effect(st: Stores, a: Act, value: string): Stores {
    match a
    case CopyFromAction(key, src, dst) => Write(st, src, key, Read(st, dst, key))
    case RemoveAction(key, mgr) => Erase(st, mgr, key)
    case PutAction(key, mgr) => Write(st, mgr, key, value)
    case GetAction(_, _) => st
    case NotSet => st
  }

  function Run(st: Stores, acts: seq<Act>, value: string): Stores {
    if acts == [] then st
    else Effect(Run(st, acts[..|acts| - 1], value), acts[|acts| - 1], value)
  }

  // ---- The interpreters -----------------------------------------------------

  /** Progress of an interpreter loop; `ok` turns false at a failed assertion. */
  datatype Exec = Exec(stores: Stores, ok: bool)

  function GetBody(st: Stores, a: Act): Exec {
    match a
    case CopyFromAction(_, _, _) => Exec(Effect(st, a, ""), true)
    case RemoveAction(_, _) => Exec(Effect(st, a, ""), true)
    case GetAction(_, _) => Exec(st, false)
    case PutAction(_, _) => Exec(st, false)
    case NotSet => Exec(st, true)
  }

  function GetLoop(st: Stores, acts: seq<Act>): Exec {
    if acts == [] then Exec(st, true)
    else
      var e := GetLoop(st, acts[..|acts| - 1]);
      if e.ok then GetBody(e.stores, acts[|acts| - 1]) else e
  }

  /** A Remove falls through into the Put case, where the action's put part has the
      default key, name and URI. */
  function PutBody(st: Stores, a: Act, key: string, value: string): Exec {
    match a
    case GetAction(_, _) => Exec(st, false)
    case CopyFromAction(_, _, _) => Exec(Effect(st, a, value), true)
    case RemoveAction(_, _) =>
      var removed := Effect(st, a, value);
      if key == "" then Exec(Write(removed, "", key, value), true) else Exec(removed, false)
    case PutAction(actionKey, mgr) =>
      if actionKey == key then Exec(Write(st, mgr, key, value), true) else Exec(st, false)
    case NotSet => Exec(st, true)
  }

  function PutLoop(st: Stores, acts: seq<Act>, key: string, value: string): Exec {
    if acts == [] then Exec(st, true)
    else
      var e := PutLoop(st, acts[..|acts| - 1], key, value);
      if e.ok then PutBody(e.stores, acts[|acts| - 1], key, value) else e
  }

  /** `reported` tells whether the log reached the master: Get sends it before the
      assertions on its last action, so an aborted Get may have reported. */
  datatype GetOutcome = GetOutcome(stores: Stores, reported: bool, reply: Result<string>)

  function RunGet(st: Stores, acts: seq<Act>, key: string): GetOutcome
    requires acts != []
  {
    var e := GetLoop(st, acts[..|acts| - 1]);
    var last := acts[|acts| - 1];
    if !e.ok then GetOutcome(e.stores, false, Failure(AssertionFailed))
    else if !last.GetAction? || last.key != key then GetOutcome(e.stores, true, Failure(AssertionFailed))
    else GetOutcome(e.stores, true, Success(Read(e.stores, last.mgr, key)))
  }

  // ---- The log --------------------------------------------------------------

  function GetLog<M>(acts: seq<Action<M>>): seq<Action<M>> {
    if acts == [] then []
    else
      var last := acts[|acts| - 1];
      GetLog(acts[..|acts| - 1]) + if last.CopyFromAction? || last.RemoveAction? then [last] else []
  }

  /** A Remove is logged twice: once in its own case and once after falling through. */
  function PutLogged<M>(a: Action<M>): seq<Action<M>> {
    if a.CopyFromAction? || a.PutAction? then [a] else if a.RemoveAction? then [a, a] else []
  }

  function PutLog<M>(acts: seq<Action<M>>): seq<Action<M>> {
    if acts == [] then [] else PutLog(acts[..|acts| - 1]) + PutLogged(acts[|acts| - 1])
  }

  // ---- The master's view ----------------------------------------------------

  predicate InView(view: View, name: string, key: string) {
    name in view && key in view[name]
  }

  /** Both operations create the manager's entry when it is missing. */
  function AddFile(view: View, name: string, key: string): View {
    view[name := (if name in view then view[name] else {}) + {key}]
  }

  function RemoveFile(view: View, name: string, key: string): View {
    view[name := (if name in view then view[name] else {}) - {key}]
  }

  /** The master replays a copy as a move. */
  function Replay1(view: View, a: Act): View {
    match a
    case CopyFromAction(key, src, dst) => RemoveFile(AddFile(view, src, key), dst, key)
    case RemoveAction(key, mgr) => RemoveFile(view, mgr, key)
    case PutAction(key, mgr) => AddFile(view, mgr, key)
    case GetAction(_, _) => view
    case NotSet => view
  }

  function Replay(view: View, log: seq<Act>): View {
    if log == [] then view else Replay1(Replay(view, log[..|log| - 1]), log[|log| - 1])
  }

  // ---- When a rule can run to its end -----------------------------------------

  predicate GetStep<M>(a: Action<M>) {
    a.CopyFromAction? || a.RemoveAction? || a.NotSet?
  }

  predicate GetSteps<M>(acts: seq<Action<M>>) {
    forall i :: 0 <= i < |acts| ==> GetStep(acts[i])
  }

  predicate PutStep<M>(a: Action<M>, key: string) {
    || a.CopyFromAction? || a.NotSet?
    || (a.PutAction? && a.key == key)
    || (a.RemoveAction? && key == "")
  }

  predicate PutSteps<M>(acts: seq<Action<M>>, key: string) {
    forall i :: 0 <= i < |acts| ==> PutStep(acts[i], key)
  }

  predicate GetExecutable<M>(acts: seq<Action<M>>, key: string) {
    && acts != []
    && GetSteps(acts[..|acts| - 1])
    && acts[|acts| - 1].GetAction?
    && acts[|acts| - 1].key == key
  }

  /** The managers an action writes to: all of them run. */
  predicate Present1(a: Act, addresses: set<string>) {
    match a
    case CopyFromAction(_, src, _) => src in addresses
    case RemoveAction(_, mgr) => mgr in addresses
    case PutAction(_, mgr) => mgr in addresses
    case GetAction(_, _) => true
    case NotSet => true
  }

  predicate Present(acts: seq<Act>, addresses: set<string>) {
    forall i :: 0 <= i < |acts| ==> Present1(acts[i], addresses)
  }

  lemma {:induction false} RunKeepsAddresses(st: Stores, acts: seq<Act>, value: string)
    ensures Run(st, acts, value).Keys == st.Keys
  {
    if acts != [] { RunKeepsAddresses(st, acts[..|acts| - 1], value); }
  }

  /** The Get loop passes every assertion exactly on Copy, Remove and unset actions,
      and then has the plain effect of its actions. */
  lemma {:induction false} GetLoopRuns(st: Stores, acts: seq<Act>, value: string)
    ensures GetLoop(st, acts).ok <==> GetSteps(acts)
    ensures GetSteps(acts) ==> GetLoop(st, acts).stores == Run(st, acts, value)
  {
    if acts != [] {
      GetLoopRuns(st, acts[..|acts| - 1], value);
    }
  }

  lemma {:induction false} GetReturnsIff(st: Stores, acts: seq<Act>, key: string, value: string)
    requires acts != []
    ensures RunGet(st, acts, key).reply.Success? <==> GetExecutable(acts, key)
    ensures GetExecutable(acts, key) ==>
              var after := Run(st, acts[..|acts| - 1], value);
              RunGet(st, acts, key) == GetOutcome(after, true, Success(Read(after, acts[|acts| - 1].mgr, key)))
  {
    GetLoopRuns(st, acts[..|acts| - 1], value);
  }

  /** The Put loop passes every assertion exactly on Copy and unset actions and Puts
      of the request's key; a Remove passes only for the empty key. The stray Put of
      a fall-through goes to the empty address, where no manager runs. */
  lemma {:induction false} PutReturnsIff(st: Stores, acts: seq<Act>, key: string, value: string)
    requires "" !in st
    ensures PutLoop(st, acts, key, value).ok <==> PutSteps(acts, key)
    ensures PutSteps(acts, key) ==> PutLoop(st, acts, key, value).stores == Run(st, acts, value)
  {
    if acts != [] {
      PutReturnsIff(st, acts[..|acts| - 1], key, value);
      RunKeepsAddresses(st, acts, value);
    }
  }

  lemma {:induction false} GetLoopStopped(st: Stores, acts: seq<Act>, i: nat)
    requires i < |acts| && GetLoop(st, acts[..i]).ok && !GetStep(acts[i])
    ensures GetLoop(st, acts) == Exec(GetLoop(st, acts[..i]).stores, false)
  {
    var before := acts[..|acts| - 1];
    if i < |before| {
      assert before[..i] == acts[..i];
      GetLoopStopped(st, before, i);
    }
  }

  lemma {:induction false} PutLoopStopped(st: Stores, acts: seq<Act>, i: nat, key: string, value: string)
    requires i < |acts| && PutLoop(st, acts[..i], key, value).ok && !PutStep(acts[i], key)
    ensures PutLoop(st, acts, key, value) == PutBody(PutLoop(st, acts[..i], key, value).stores, acts[i], key, value)
  {
    var before := acts[..|acts| - 1];
    if i < |before| {
      assert before[..i] == acts[..i];
      PutLoopStopped(st, before, i, key, value);
    }
  }

  lemma {:induction false} GetOneMore<M>(st: Stores, acts: seq<Act>, raw: seq<Action<M>>, i: nat)
    requires i < |acts| == |raw| && GetLoop(st, acts[..i]).ok
    ensures GetLoop(st, acts[..i + 1]) == GetBody(GetLoop(st, acts[..i]).stores, acts[i])
    ensures GetLog(raw[..i + 1])
            == GetLog(raw[..i]) + if raw[i].CopyFromAction? || raw[i].RemoveAction? then [raw[i]] else []
  {
    assert acts[..i + 1][..i] == acts[..i] && raw[..i + 1][..i] == raw[..i];
  }

  lemma {:induction false} PutOneMore<M>(st: Stores, acts: seq<Act>, raw: seq<Action<M>>, i: nat, key: string,
                                         value: string)
    requires i < |acts| == |raw| && PutLoop(st, acts[..i], key, value).ok
    ensures PutLoop(st, acts[..i + 1], key, value)
            == PutBody(PutLoop(st, acts[..i], key, value).stores, acts[i], key, value)
    ensures PutLog(raw[..i + 1]) == PutLog(raw[..i]) + PutLogged(raw[i])
  {
    assert acts[..i + 1][..i] == acts[..i] && raw[..i + 1][..i] == raw[..i];
  }

  // ---- The log says what the actions did ------------------------------------

  lemma {:induction false} ReplayOfAppend(view: View, a: seq<Act>, b: seq<Act>)
    ensures Replay(view, a + b) == Replay(Replay(view, a), b)
  {
    if b == [] {
      assert a + b == a;
    } else {
      ReplayOfAppend(view, a, b[..|b| - 1]);
      assert (a + b)[..|a + b| - 1] == a + b[..|b| - 1];
    }
  }

  lemma {:induction false} GetLogReplays(view: View, acts: seq<Act>)
    requires GetSteps(acts)
    ensures Replay(view, GetLog(acts)) == Replay(view, acts)
  {
    if acts != [] {
      var before, last := acts[..|acts| - 1], acts[|acts| - 1];
      GetLogReplays(view, before);
      if last.NotSet? {
        assert GetLog(acts) == GetLog(before);
      } else {
        assert GetLog(acts)[..|GetLog(acts)| - 1] == GetLog(before);
      }
    }
  }

  lemma {:induction false} RemoveFileTwice(view: View, name: string, key: string)
    ensures RemoveFile(RemoveFile(view, name, key), name, key) == RemoveFile(view, name, key)
  {
    var once := RemoveFile(view, name, key);
    assert once[name] - {key} == once[name];
    assert once[name := once[name]] == once;
  }

  lemma {:induction false} ReplayOfOne(view: View, a: Act)
    ensures Replay(view, [a]) == Replay1(view, a)
  {
    assert [a][..0] == [];
  }

  lemma {:induction false} PutLoggedReplays(view: View, a: Act, key: string)
    requires PutStep(a, key)
    ensures Replay(view, PutLogged(a)) == Replay1(view, a)
  {
    ReplayOfOne(view, a);
    if a.RemoveAction? {
      assert [a, a] == [a] + [a];
      ReplayOfAppend(view, [a], [a]);
      ReplayOfOne(Replay1(view, a), a);
      RemoveFileTwice(view, a.mgr, a.key);
    }
  }

  /** The doubled Remove entry changes nothing: replaying it is idempotent. */
  lemma {:induction false} PutLogReplays(view: View, acts: seq<Act>, key: string)
    requires PutSteps(acts, key)
    ensures Replay(view, PutLog(acts)) == Replay(view, acts)
  {
    if acts != [] {
      var before, last := acts[..|acts| - 1], acts[|acts| - 1];
      PutLogReplays(view, before, key);
      ReplayOfAppend(view, PutLog(before), PutLogged(last));
      PutLoggedReplays(Replay(view, before), last, key);
    }
  }

  /** Both changes of the view create a manager's entry, a removal an empty one, and leave the
      other managers alone. */
  lemma {:induction false} ChangesCreateEntries(view: View, name: string, key: string, other: string)
    ensures name in AddFile(view, name, key) && name in RemoveFile(view, name, key)
    ensures name !in view ==> AddFile(view, name, key)[name] == {key} && RemoveFile(view, name, key)[name] == {}
    ensures other != name ==>
              && (other in AddFile(view, name, key) <==> other in view)
              && (other in RemoveFile(view, name, key) <==> other in view)
              && (other in view ==>
                    AddFile(view, name, key)[other] == view[other] == RemoveFile(view, name, key)[other])
  {
  }

  /** The stray Put of a fallen-through Remove: were a manager reached at the empty address, it
      would store the request, and the removal would be logged twice. */
  lemma {:induction false} FallThroughPuts(st: Stores, key: string, mgr: string, value: string)
    requires "" in st
    ensures var acts: seq<Act> := [RemoveAction(key, mgr)];
            var out := PutLoop(st, acts, "", value);
            && out.ok && Stored(out.stores, "", "") && out.stores[""][""] == value
            && PutLog(acts) == [acts[0], acts[0]]
  {
    var remove: Act := RemoveAction(key, mgr);
    assert [remove][..0] == [] && PutLoop(st, [], "", value) == Exec(st, true);
    assert PutLog([remove]) == [] + PutLogged(remove);
  }

  // ---- One action at one (manager, key) pair ----------------------------------

  predicate Writes(a: Act, m: string, k: string) {
    || (a.CopyFromAction? && a.key == k && a.srcMgr == m)
    || (a.PutAction? && a.key == k && a.mgr == m)
  }

  predicate Removes(a: Act, m: string, k: string) {
    a.RemoveAction? && a.key == k && a.mgr == m
  }

  predicate CopiesOut(a: Act, m: string, k: string) {
    a.CopyFromAction? && a.key == k && a.dstMgr == m
  }

  predicate Touches(a: Act, m: string, k: string) {
    Writes(a, m, k) || Removes(a, m, k) || CopiesOut(a, m, k)
  }

  lemma {:induction false} StoredAfterEffect(st: Stores, a: Act, value: string, m: string, k: string)
    requires Present1(a, st.Keys)
    ensures Stored(Effect(st, a, value), m, k) <==> Writes(a, m, k) || (Stored(st, m, k) && !Removes(a, m, k))
  {
  }

  /** A copy onto itself is dropped from the view: the removal is replayed last. */
  lemma {:induction false} InViewAfterReplay(view: View, a: Act, m: string, k: string)
    ensures InView(Replay1(view, a), m, k) <==>
            && (Writes(a, m, k) || InView(view, m, k))
            && !Removes(a, m, k) && !CopiesOut(a, m, k)
  {
  }
}

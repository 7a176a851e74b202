/** Data safety over every interleaving: as long as no call removes a copy that another has
    still to pull from, all copies of a key keep their value. */
module ConcurrentData {
  import opened Messages
  import opened Interpreter
  import opened DataSafety
  import opened Resolution
  import opened Cluster
  import opened KnownPeers
  import opened ConcurrentSteps
  import opened ConcurrentView

  /** The actions a call has still to begin; a pulled value has only to be stored. */
  function Ahead(p: Phase): seq<Action<Manager>> {
    match p
    case Idle => []
    case Running(call, pc, _) => if pc <= |call.body| then call.body[pc..] else []
    case Pulled(call, pc, _, _) => if pc < |call.body| then call.body[pc + 1..] else []
    case Reporting(_, _) => []
  }

  ghost predicate PullsFrom(acts: seq<Action<Manager>>, m: string, k: string) {
    exists i :: 0 <= i < |acts| && acts[i].CopyFromAction? && acts[i].key == k && acts[i].dstMgr.name == m
  }

  /** The names at which k will be found, as far as the action tells. */
  function Found1(names: set<string>, a: Action<Manager>, k: string): set<string> {
    match a
    case CopyFromAction(key, src, _) => if key == k then names + {src.name} else names
    case RemoveAction(key, mgr) => if key == k then names - {mgr.name} else names
    case PutAction(key, mgr) => if key == k then names + {mgr.name} else names
    case GetAction(_, _) => names
    case NotSet => names
  }

  /** Every copy of k in the actions finds it, when they start from these names. */
  predicate Fed(acts: seq<Action<Manager>>, names: set<string>, k: string) {
    acts != [] ==>
      && (acts[0].CopyFromAction? && acts[0].key == k ==> acts[0].dstMgr.name in names)
      && Fed(acts[1..], Found1(names, acts[0], k), k)
  }

  /** The named managers that serve and store k. */
  function Sources(s: System, k: string): set<string> {
    set m | m in s.peers && s.peers[m] in s.serving && Stored(s.stores, s.peers[m], k)
  }

  /** The call has pulled a value of k and not yet stored it. */
  predicate HasPulled(p: Phase, k: string) {
    p.Pulled? && p.pc < |p.call.body| && p.call.body[p.pc].CopyFromAction? && p.call.body[p.pc].key == k
  }

  /** What the call finds: the sources, and the one its pulled value will be stored at. */
  function Finds(s: System, p: Phase, k: string): set<string> {
    Sources(s, k) +
    if HasPulled(p, k) then {p.call.body[p.pc].srcMgr.name} else {}
  }

  /** Neither call removes what the other has still to pull. */
  ghost predicate Undisturbed(p: Phase, q: Phase, k: string) {
    forall m ::
      && !(PullsFrom(Ahead(p), m, k) && RemovesIn(Ahead(q), m, k))
      && !(RemovesIn(Ahead(p), m, k) && PullsFrom(Ahead(q), m, k))
  }

  /** What the call has pulled of k, or puts, is v. */
  ghost predicate Carries(p: Phase, k: string, v: string) {
    && (HasPulled(p, k) ==> p.value == v)
    && forall i :: 0 <= i < |Ahead(p)| && Ahead(p)[i].PutAction? && Ahead(p)[i].key == k ==> p.call.value == v
  }

  // ---- What the environment is asked for ----------------------------------------

  /** A call starts with every copy of k fed, with no other value for k, and undisturbed by the
      calls under way; no manager stops that a call has still to pull k from. */
  ghost predicate Gentle(s: System, step: Step, k: string, v: string)
    requires Enabled(s, step)
  {
    && MeetsOneToOne(s, step)
    && match step
       case Begin(t, op, key, value) =>
         var p := Begun(s, t, op, key, value);
         && Fed(Ahead(p), Sources(s, k), k) && Carries(p, k, v)
         && forall c <- s.threads.Keys :: c != t ==> Undisturbed(p, s.threads[c], k)
       case ManagerStop(u) =>
         forall t <- s.threads.Keys, m <- s.peers.Keys :: PullsFrom(Ahead(s.threads[t]), m, k) ==> s.peers[m] != u
       case _ => true
  }

  ghost predicate CallsFed(s: System, k: string) {
    forall t <- s.threads.Keys :: Fed(Ahead(s.threads[t]), Finds(s, s.threads[t], k), k)
  }

  ghost predicate DataInv(s: System, k: string, v: string) {
    && Base(s) && AllCopies(s.stores, k, v) && CallsFed(s, k)
    && (forall t <- s.threads.Keys :: Carries(s.threads[t], k, v))
    && forall c <- s.threads.Keys, d <- s.threads.Keys :: c != d ==> Undisturbed(s.threads[c], s.threads[d], k)
  }

  // ---- Feeding ------------------------------------------------------------------------

  lemma {:induction false} PullsFromFirst(a: Action<Manager>, rest: seq<Action<Manager>>, m: string, k: string)
    ensures PullsFrom([a] + rest, m, k) <==>
              (a.CopyFromAction? && a.key == k && a.dstMgr.name == m) || PullsFrom(rest, m, k)
  {
    var all := [a] + rest;
    assert all[0] == a && forall i :: 0 <= i < |rest| ==> all[i + 1] == rest[i];
    assert forall i :: 1 <= i < |all| ==> all[i] == rest[i - 1];
  }

  /** Only the names pulled from matter. */
  lemma {:induction false} FedByPulled(acts: seq<Action<Manager>>, names: set<string>, names': set<string>, k: string)
    requires Fed(acts, names, k)
    requires forall m <- names :: PullsFrom(acts, m, k) ==> m in names'
    ensures Fed(acts, names', k)
  {
    if acts != [] {
      assert acts == [acts[0]] + acts[1..];
      forall m ensures PullsFrom(acts[1..], m, k) ==> PullsFrom(acts, m, k) {
        PullsFromFirst(acts[0], acts[1..], m, k);
      }
      if acts[0].CopyFromAction? && acts[0].key == k {
        PullsFromFirst(acts[0], acts[1..], acts[0].dstMgr.name, k);
      }
      FedByPulled(acts[1..], Found1(names, acts[0], k), Found1(names', acts[0], k), k);
    }
  }

  // ---- Steps of a call ------------------------------------------------------------------

  /** The calls but t's are where they were; only t's loses what it has begun. */
  ghost predicate OneAhead(s: System, s': System, t: Thread) {
    && LocalMove(s, s', t)
    && (Ahead(s'.threads[t]) == Ahead(s.threads[t])
        || (Ahead(s.threads[t]) != [] && Ahead(s'.threads[t]) == Ahead(s.threads[t])[1..]))
  }

  lemma {:induction false} AheadShrinks(acts: seq<Action<Manager>>, m: string, k: string)
    requires acts != []
    ensures PullsFrom(acts[1..], m, k) ==> PullsFrom(acts, m, k)
    ensures RemovesIn(acts[1..], m, k) ==> RemovesIn(acts, m, k)
  {
    assert acts == [acts[0]] + acts[1..];
    PullsFromFirst(acts[0], acts[1..], m, k);
    FirstOfRest(acts[0], acts[1..], m, k);
  }

  lemma {:induction false} MoveKeepsUndisturbed(s: System, s': System, t: Thread, k: string, v: string)
    requires DataInv(s, k, v) && OneAhead(s, s', t)
    ensures forall c <- s'.threads.Keys, d <- s'.threads.Keys :: c != d ==> Undisturbed(s'.threads[c], s'.threads[d], k)
  {
    forall c <- s.threads.Keys, d <- s.threads.Keys | c != d ensures Undisturbed(s'.threads[c], s'.threads[d], k) {
      assert Undisturbed(s.threads[c], s.threads[d], k);
      forall m
        ensures !(PullsFrom(Ahead(s'.threads[c]), m, k) && RemovesIn(Ahead(s'.threads[d]), m, k))
        ensures !(RemovesIn(Ahead(s'.threads[c]), m, k) && PullsFrom(Ahead(s'.threads[d]), m, k))
      {
        if Ahead(s.threads[t]) != [] { AheadShrinks(Ahead(s.threads[t]), m, k); }
      }
    }
  }

  /** The other calls stay fed when t's removes nothing they pull from. */
  lemma {:induction false} OthersStayFed(s: System, s': System, t: Thread, k: string, v: string)
    requires DataInv(s, k, v) && OneAhead(s, s', t)
    requires forall m <- Sources(s, k) :: m !in Sources(s', k) ==> RemovesIn(Ahead(s.threads[t]), m, k)
    ensures forall c <- s.threads.Keys :: c != t ==> Fed(Ahead(s'.threads[c]), Finds(s', s'.threads[c], k), k)
  {
    forall c <- s.threads.Keys | c != t ensures Fed(Ahead(s'.threads[c]), Finds(s', s'.threads[c], k), k) {
      var p := s.threads[c];
      assert Undisturbed(p, s.threads[t], k);
      forall m <- Finds(s, p, k) | PullsFrom(Ahead(p), m, k) ensures m in Finds(s', p, k) {
        assert !RemovesIn(Ahead(s.threads[t]), m, k);
      }
      FedByPulled(Ahead(p), Finds(s, p, k), Finds(s', p, k), k);
    }
  }

  /** t's call moved on; what is left to show is about its own feed and the values. */
  lemma {:induction false} MoveKeepsData(s: System, s': System, t: Thread, k: string, v: string)
    requires DataInv(s, k, v) && OneAhead(s, s', t) && Base(s')
    requires forall m <- Sources(s, k) :: m !in Sources(s', k) ==> RemovesIn(Ahead(s.threads[t]), m, k)
    requires AllCopies(s'.stores, k, v) && Carries(s'.threads[t], k, v)
    requires Fed(Ahead(s'.threads[t]), Finds(s', s'.threads[t], k), k)
    ensures DataInv(s', k, v)
  {
    MoveKeepsUndisturbed(s, s', t, k, v);
    OthersStayFed(s, s', t, k, v);
  }

  /** t's call has begun its next action. */
  ghost predicate Began(s: System, s': System, t: Thread, k: string)
    requires t in s.threads && t in s'.threads
  {
    var p, p' := s.threads[t], s'.threads[t];
    && Ahead(p) != [] && Ahead(p') == Ahead(p)[1..]
    && Finds(s, p, k) == Sources(s, k) && Finds(s', p', k) == Found1(Sources(s, k), Ahead(p)[0], k)
    && forall m <- Sources(s, k) :: m !in Sources(s', k) ==> StoreTouch(Ahead(p)[0], m, k) == Dropped
  }

  lemma {:induction false} BeganKeepsData(s: System, s': System, t: Thread, k: string, v: string)
    requires DataInv(s, k, v) && LocalMove(s, s', t) && Base(s') && Began(s, s', t, k)
    requires AllCopies(s'.stores, k, v) && Carries(s'.threads[t], k, v)
    ensures DataInv(s', k, v)
  {
    var p := s.threads[t];
    assert Fed(Ahead(p), Finds(s, p, k), k);
    forall m <- Sources(s, k) | m !in Sources(s', k) ensures RemovesIn(Ahead(p), m, k) {
      assert StoreTouch(Ahead(p)[0], m, k) == Dropped;
    }
    MoveKeepsData(s, s', t, k, v);
  }

  /** A put or a removal at a serving manager changes the sources by its name. */
  lemma {:induction false} SourcesAfterEffect(s: System, s': System, a: Action<Manager>, value: string, k: string)
    requires OneToOne(s.peers) && Coherent1(s.peers, a) && Ready(s, a) && !a.CopyFromAction?
    requires s.serving <= s.stores.Keys
    requires s'.peers == s.peers && s'.serving == s.serving
    requires s'.stores == Effect(s.stores, Labelled(a, ByUri), value)
    ensures Sources(s', k) == Found1(Sources(s, k), a, k)
  {
    forall m ensures m in Sources(s', k) <==> m in Found1(Sources(s, k), a, k) {
    }
  }

  lemma {:induction false} PutKeepsCopies(st: Stores, a: Act, value: string, k: string, v: string)
    requires AllCopies(st, k, v) && !a.CopyFromAction? && (a.PutAction? && a.key == k ==> value == v)
    ensures AllCopies(Effect(st, a, value), k, v)
  {
  }

  lemma {:induction false} ActBegins(s: System, t: Thread, k: string)
    requires Base(s) && Enabled(s, Act(t))
    requires var p := s.threads[t]; !p.call.body[p.pc].CopyFromAction?
    ensures var s', p := Next(s, Act(t)), s.threads[t];
            && Began(s, s', t, k) && s'.threads[t].Running? && s'.threads[t].call == p.call
            && Ahead(p)[0] == p.call.body[p.pc]
            && s'.stores == Effect(s.stores, Labelled(Ahead(p)[0], ByUri), p.call.value)
  {
    var s', p := Next(s, Act(t)), s.threads[t];
    ActIsEffect(s, t);
    SourcesAfterEffect(s, s', p.call.body[p.pc], p.call.value, k);
  }

  lemma {:induction false} CarriesOn(p: Phase, p': Phase, k: string, v: string)
    requires Carries(p, k, v) && Ahead(p) != [] && Ahead(p') == Ahead(p)[1..]
    requires !p.Idle? && !p'.Idle? && p'.call == p.call
    requires HasPulled(p', k) ==> p'.value == v
    ensures Carries(p', k, v)
  {
    assert forall i :: 0 <= i < |Ahead(p')| ==> Ahead(p')[i] == Ahead(p)[i + 1];
  }

  lemma {:induction false} ActKeepsData(s: System, t: Thread, k: string, v: string)
    requires DataInv(s, k, v) && Enabled(s, Act(t))
    requires var p := s.threads[t]; !p.call.body[p.pc].CopyFromAction?
    ensures DataInv(Next(s, Act(t)), k, v)
  {
    var s', p := Next(s, Act(t)), s.threads[t];
    CallStepMoves(s, Act(t));
    ActBegins(s, t, k);
    assert Carries(p, k, v);
    CarriesOn(p, s'.threads[t], k, v);
    PutKeepsCopies(s.stores, Labelled(Ahead(p)[0], ByUri), p.call.value, k, v);
    BeganKeepsData(s, s', t, k, v);
  }

  lemma {:induction false} PullBegins(s: System, t: Thread, k: string)
    requires Base(s) && Enabled(s, Act(t))
    requires var p := s.threads[t]; p.call.body[p.pc].CopyFromAction?
    ensures var s', p := Next(s, Act(t)), s.threads[t];
            var a := p.call.body[p.pc];
            && Began(s, s', t, k) && Ahead(p)[0] == a && s'.stores == s.stores
            && s'.threads[t] == Pulled(p.call, p.pc, p.log, Pull(s, a))
            && Coherent1(s.peers, a)
  {
    var s', p := Next(s, Act(t)), s.threads[t];
    assert Coherent(s.peers, Body(p)) && Coherent1(s.peers, p.call.body[p.pc]);
    assert Sources(s', k) == Sources(s, k);
  }

  /** A fed copy of k pulls v. */
  lemma {:induction false} FedPullIsValue(s: System, a: Action<Manager>, k: string, v: string)
    requires a.CopyFromAction? && a.key == k && Coherent1(s.peers, a)
    requires a.dstMgr.name in Sources(s, k) && AllCopies(s.stores, k, v)
    ensures Pull(s, a) == v
  {
  }

  lemma {:induction false} PullKeepsData(s: System, t: Thread, k: string, v: string)
    requires DataInv(s, k, v) && Enabled(s, Act(t))
    requires var p := s.threads[t]; p.call.body[p.pc].CopyFromAction?
    ensures DataInv(Next(s, Act(t)), k, v)
  {
    var s', p := Next(s, Act(t)), s.threads[t];
    var a := p.call.body[p.pc];
    CallStepMoves(s, Act(t));
    PullBegins(s, t, k);
    assert Carries(p, k, v) && Fed(Ahead(p), Finds(s, p, k), k);
    if a.key == k { FedPullIsValue(s, a, k, v); }
    CarriesOn(p, s'.threads[t], k, v);
    BeganKeepsData(s, s', t, k, v);
  }

  /** t's call has begun nothing new. */
  lemma {:induction false} SameAheadKeepsData(s: System, s': System, t: Thread, k: string, v: string)
    requires DataInv(s, k, v) && LocalMove(s, s', t) && Base(s')
    requires Ahead(s'.threads[t]) == Ahead(s.threads[t])
    requires Sources(s, k) <= Sources(s', k) && AllCopies(s'.stores, k, v)
    requires Finds(s, s.threads[t], k) <= Finds(s', s'.threads[t], k) && Carries(s'.threads[t], k, v)
    ensures DataInv(s', k, v)
  {
    var p := s.threads[t];
    assert Fed(Ahead(p), Finds(s, p, k), k);
    FedByPulled(Ahead(p), Finds(s, p, k), Finds(s', s'.threads[t], k), k);
    MoveKeepsData(s, s', t, k, v);
  }

  /** The pulled value is stored where the call was to find it. */
  lemma {:induction false} StoreFinds(s: System, t: Thread, k: string)
    requires Base(s) && Enabled(s, Store(t))
    ensures var s', p := Next(s, Store(t)), s.threads[t];
            var a := p.call.body[p.pc];
            && s'.stores == Effect(s.stores, Labelled(PutAction(a.key, a.srcMgr), ByUri), p.value)
            && s'.threads[t].Running? && s'.threads[t].call == p.call && Ahead(s'.threads[t]) == Ahead(p)
            && Sources(s, k) <= Sources(s', k) && Finds(s, p, k) <= Finds(s', s'.threads[t], k)
  {
    var s', p := Next(s, Store(t)), s.threads[t];
    var a := p.call.body[p.pc];
    StoreIsPut(s, t);
    SourcesAfterEffect(s, s', PutAction(a.key, a.srcMgr), p.value, k);
  }

  lemma {:induction false} RunsOn(p: Phase, p': Phase, k: string, v: string)
    requires Carries(p, k, v) && Ahead(p') == Ahead(p) && !p.Idle? && p'.Running? && p'.call == p.call
    ensures Carries(p', k, v)
  {
  }

  lemma {:induction false} StoreKeepsCopies(s: System, t: Thread, k: string, v: string)
    requires Enabled(s, Store(t)) && AllCopies(s.stores, k, v) && Carries(s.threads[t], k, v)
    requires Base(s)
    ensures AllCopies(Next(s, Store(t)).stores, k, v) && Carries(Next(s, Store(t)).threads[t], k, v)
  {
    var s', p := Next(s, Store(t)), s.threads[t];
    var a := p.call.body[p.pc];
    StoreFinds(s, t, k);
    PutKeepsCopies(s.stores, Labelled(PutAction(a.key, a.srcMgr), ByUri), p.value, k, v);
    RunsOn(p, s'.threads[t], k, v);
  }

  lemma {:induction false} StoreKeepsData(s: System, t: Thread, k: string, v: string)
    requires DataInv(s, k, v) && Enabled(s, Store(t))
    ensures DataInv(Next(s, Store(t)), k, v)
  {
    CallStepMoves(s, Store(t));
    StoreFinds(s, t, k);
    assert Carries(s.threads[t], k, v);
    StoreKeepsCopies(s, t, k, v);
    SameAheadKeepsData(s, Next(s, Store(t)), t, k, v);
  }

  lemma {:induction false} EndFinds(s: System, step: Step, k: string, v: string)
    requires Enabled(s, step) && (step.Report? || step.Apply? || step.Return?)
    ensures var s', t := Next(s, step), step.thread;
            && Ahead(s.threads[t]) == [] && Ahead(s'.threads[t]) == [] && s'.stores == s.stores
            && Sources(s', k) == Sources(s, k) && Finds(s, s.threads[t], k) <= Finds(s', s'.threads[t], k)
            && Carries(s'.threads[t], k, v)
  {
  }

  /** Report, Apply and Return leave nothing ahead, and the stores alone. */
  lemma {:induction false} EndKeepsData(s: System, step: Step, k: string, v: string)
    requires DataInv(s, k, v) && Enabled(s, step) && (step.Report? || step.Apply? || step.Return?)
    ensures DataInv(Next(s, step), k, v)
  {
    CallStepMoves(s, step);
    EndFinds(s, step, k, v);
    SameAheadKeepsData(s, Next(s, step), step.thread, k, v);
  }

  lemma {:induction false} CallStepKeepsData(s: System, step: Step, k: string, v: string)
    requires DataInv(s, k, v) && Enabled(s, step) && CallStep(step) && !step.Begin?
    ensures DataInv(Next(s, step), k, v)
  {
    if step.Act? {
      var p := s.threads[step.thread];
      if p.call.body[p.pc].CopyFromAction? {
        PullKeepsData(s, step.thread, k, v);
      } else {
        ActKeepsData(s, step.thread, k, v);
      }
    } else if step.Store? {
      StoreKeepsData(s, step.thread, k, v);
    } else {
      EndKeepsData(s, step, k, v);
    }
  }

  // ---- The other steps --------------------------------------------------------------------

  /** More names and sources do no harm. */
  lemma {:induction false} MoreSourcesKeepData(s: System, s': System, k: string, v: string)
    requires DataInv(s, k, v) && Base(s') && s'.threads == s.threads && s'.stores == s.stores
    requires forall t <- s.threads.Keys, m <- Sources(s, k) ::
      PullsFrom(Ahead(s.threads[t]), m, k) ==> m in Sources(s', k)
    ensures DataInv(s', k, v)
  {
    forall t <- s.threads.Keys ensures Fed(Ahead(s.threads[t]), Finds(s', s.threads[t], k), k) {
      var p := s.threads[t];
      assert Fed(Ahead(p), Finds(s, p, k), k);
      FedByPulled(Ahead(p), Finds(s, p, k), Finds(s', p, k), k);
    }
  }

  lemma {:induction false} NewCallKeepsData(s: System, t: Thread, p: Phase, k: string, v: string)
    requires DataInv(s, k, v) && t in s.threads && p.Running? && Base(WithPhase(s, t, p))
    requires Fed(Ahead(p), Sources(s, k), k) && Carries(p, k, v)
    requires forall c <- s.threads.Keys :: c != t ==> Undisturbed(p, s.threads[c], k)
    ensures DataInv(WithPhase(s, t, p), k, v)
  {
    var s' := WithPhase(s, t, p);
    assert Sources(s', k) == Sources(s, k);
    forall c <- s.threads.Keys ensures Fed(Ahead(s'.threads[c]), Finds(s', s'.threads[c], k), k) {
      if c == t {
        assert Finds(s', p, k) == Sources(s, k);
      } else {
        assert Finds(s', s'.threads[c], k) == Finds(s, s.threads[c], k);
      }
    }
    forall c <- s.threads.Keys | c != t ensures Undisturbed(s.threads[c], p, k) {
      assert Undisturbed(p, s.threads[c], k);
    }
  }

  lemma {:induction false} BeginKeepsData(s: System, step: Step, k: string, v: string)
    requires DataInv(s, k, v) && Enabled(s, step) && Gentle(s, step, k, v) && step.Begin?
    ensures DataInv(Next(s, step), k, v)
  {
    BeginKeepsBase(s, step);
    NewCallKeepsData(s, step.thread, Begun(s, step.thread, step.op, step.key, step.value), k, v);
  }

  lemma {:induction false} CrashKeepsData(s: System, client: string, k: string, v: string)
    requires DataInv(s, k, v) && client in s.rules
    ensures DataInv(Crashed(s, client), k, v)
  {
    var s' := Crashed(s, client);
    CrashKeepsBase(s, client);
    assert Ahead(Idle) == [] && Sources(s', k) == Sources(s, k);
    forall c <- s.threads.Keys
      ensures Fed(Ahead(s'.threads[c]), Finds(s', s'.threads[c], k), k) && Carries(s'.threads[c], k, v)
    {
      assert Fed(Ahead(s.threads[c]), Finds(s, s.threads[c], k), k) && Carries(s.threads[c], k, v);
      assert s'.threads[c] == s.threads[c] ==> Finds(s', s'.threads[c], k) == Finds(s, s.threads[c], k);
    }
    forall c <- s.threads.Keys, d <- s.threads.Keys | c != d ensures Undisturbed(s'.threads[c], s'.threads[d], k) {
      assert Undisturbed(s.threads[c], s.threads[d], k);
    }
  }

  lemma {:induction false} OtherStepFrame(s: System, step: Step)
    requires Enabled(s, step) && MeetsOneToOne(s, step) && !CallStep(step) && !step.Crash?
    ensures var s' := Next(s, step);
            && s'.threads == s.threads && s'.stores == s.stores
            && (forall m <- s.peers.Keys :: m in s'.peers && s'.peers[m] == s.peers[m])
            && (forall u <- s.serving :: u in s'.serving || step == ManagerStop(u))
  {
  }

  lemma {:induction false} OtherStepKeepsSources(s: System, step: Step, k: string, v: string)
    requires Enabled(s, step) && Gentle(s, step, k, v) && !CallStep(step) && !step.Crash?
    ensures Next(s, step).threads == s.threads && Next(s, step).stores == s.stores
    ensures forall t <- s.threads.Keys, m <- Sources(s, k) ::
      PullsFrom(Ahead(s.threads[t]), m, k) ==> m in Sources(Next(s, step), k)
  {
    var s' := Next(s, step);
    OtherStepFrame(s, step);
    forall t <- s.threads.Keys, m <- Sources(s, k) | PullsFrom(Ahead(s.threads[t]), m, k) ensures m in Sources(s', k) {
      assert s.peers[m] in s'.serving;
    }
  }

  lemma {:induction false} OtherStepKeepsData(s: System, step: Step, k: string, v: string)
    requires DataInv(s, k, v) && Enabled(s, step) && Gentle(s, step, k, v)
    requires !CallStep(step) && !step.Crash?
    ensures DataInv(Next(s, step), k, v)
  {
    OtherStepIsQuiet(s, step);
    OtherStepKeepsSources(s, step, k, v);
    MoreSourcesKeepData(s, Next(s, step), k, v);
  }

  lemma {:induction false} StepKeepsData(s: System, step: Step, k: string, v: string)
    requires DataInv(s, k, v) && Enabled(s, step) && Gentle(s, step, k, v)
    ensures DataInv(Next(s, step), k, v)
  {
    if step.Begin? {
      BeginKeepsData(s, step, k, v);
    } else if CallStep(step) {
      CallStepKeepsData(s, step, k, v);
    } else if step.Crash? {
      CrashKeepsData(s, step.client, k, v);
    } else {
      OtherStepKeepsData(s, step, k, v);
    }
  }

  // ---- Whole runs ----------------------------------------------------------------------

  ghost predicate IsGentlePath(run: seq<System>, steps: seq<Step>, k: string, v: string) {
    IsPath(run, steps)
    && forall i :: 0 <= i < |steps| ==> StepTo(run[i], steps[i], run[i + 1]) && Gentle(run[i], steps[i], k, v)
  }

  lemma {:induction false} GentlePathKeepsData(run: seq<System>, steps: seq<Step>, k: string, v: string)
    requires IsGentlePath(run, steps, k, v) && DataInv(run[0], k, v)
    ensures DataInv(run[|steps|], k, v)
  {
    var n := |steps|;
    if n > 0 {
      GentlePathKeepsData(run[..n], steps[..n - 1], k, v);
      assert StepTo(run[n - 1], steps[n - 1], run[n]);
      StepKeepsData(run[n - 1], steps[n - 1], k, v);
    }
  }

  /** In every gentle run that starts with all copies of k alike, they are alike in every state,
      whatever moves and copies the calls make at the same time. When the run is tame too and
      no call is under way, the copies the view lists are stored, with that value. */
  lemma {:induction false} ConcurrentCopiesKeepValue(run: seq<System>, steps: seq<Step>, k: string, v: string)
    requires IsGentlePath(run, steps, k, v) && Initial(run[0]) && AllCopies(run[0].stores, k, v)
    ensures var s := run[|steps|];
            && AllCopies(s.stores, k, v)
            && (IsTamePath(run, steps) && AllIdle(s) ==> ListedCopies(s.view, Named(s.peers, s.stores), k, v))
  {
    var s := run[|steps|];
    InitialIsInv(run[0]);
    assert Ahead(Idle) == [];
    GentlePathKeepsData(run, steps, k, v);
    if IsTamePath(run, steps) && AllIdle(s) {
      QuiescentViewIsSound(run, steps);
      assert forall m :: InView(s.view, m, k) ==> Held(s, m, k);
    }
  }
}

/** How far the master's file view can drift from the managers' stores when rules
    run one after another: it never claims a key that is not stored, and the keys it
    misses are exactly those whose last touching action copied them out. */
module ViewGap {
  import opened Messages
  import opened Interpreter

  ghost predicate Sound(view: View, st: Stores) {
    forall m, k :: InView(view, m, k) ==> Stored(st, m, k)
  }

  ghost predicate Agree(view: View, st: Stores) {
    forall m, k :: InView(view, m, k) <==> Stored(st, m, k)
  }

  /** The view is the stores without the open pairs. */
  ghost predicate Gap(view: View, st: Stores, open: set<(string, string)>) {
    forall m, k :: InView(view, m, k) <==> Stored(st, m, k) && (m, k) !in open
  }

  /** Which (manager, key) pairs a list of actions leaves open: a Copy opens its
      destination, any later write or removal there closes it. */
  function Open1(open: set<(string, string)>, a: Act): set<(string, string)> {
    match a
    case CopyFromAction(key, src, dst) => open - {(src, key)} + {(dst, key)}
    case RemoveAction(key, mgr) => open - {(mgr, key)}
    case PutAction(key, mgr) => open - {(mgr, key)}
    case GetAction(_, _) => open
    case NotSet => open
  }

  function OpenAfter(open: set<(string, string)>, acts: seq<Act>): set<(string, string)> {
    if acts == [] then open else Open1(OpenAfter(open, acts[..|acts| - 1]), acts[|acts| - 1])
  }

  /** The last action that touches the pair is a Copy naming the manager as destination. */
  ghost predicate LastTouchCopiesOut(acts: seq<Act>, m: string, k: string) {
    exists i :: 0 <= i < |acts| && CopiesOut(acts[i], m, k)
                && forall j :: i < j < |acts| ==> !Touches(acts[j], m, k)
  }

  lemma {:induction false} OpenIffLastTouchCopiesOut(acts: seq<Act>, m: string, k: string)
    ensures (m, k) in OpenAfter({}, acts) <==> LastTouchCopiesOut(acts, m, k)
  {
    if acts != [] {
      var n := |acts| - 1;
      var before := acts[..n];
      OpenIffLastTouchCopiesOut(before, m, k);
      if Touches(acts[n], m, k) {
        assert CopiesOut(acts[n], m, k) ==> LastTouchCopiesOut(acts, m, k);
      } else {
        if LastTouchCopiesOut(before, m, k) {
          var i :| 0 <= i < n && CopiesOut(before[i], m, k) && forall j :: i < j < n ==> !Touches(before[j], m, k);
          assert CopiesOut(acts[i], m, k);
        }
        if LastTouchCopiesOut(acts, m, k) {
          var i :| 0 <= i <= n && CopiesOut(acts[i], m, k) && forall j :: i < j <= n ==> !Touches(acts[j], m, k);
          assert CopiesOut(before[i], m, k);
        }
      }
    }
  }

  lemma {:induction false} GapStep(view: View, st: Stores, open: set<(string, string)>, a: Act, value: string)
    requires Gap(view, st, open) && Present1(a, st.Keys)
    ensures Gap(Replay1(view, a), Effect(st, a, value), Open1(open, a))
  {
    forall m, k
      ensures InView(Replay1(view, a), m, k) <==>
              Stored(Effect(st, a, value), m, k) && (m, k) !in Open1(open, a)
    {
      StoredAfterEffect(st, a, value, m, k);
      InViewAfterReplay(view, a, m, k);
    }
  }

  /** The exact gap, over any actions (so over any sequence of rules) on running managers. */
  lemma {:induction false} GapAfter(view: View, st: Stores, open: set<(string, string)>, acts: seq<Act>, value: string)
    requires Gap(view, st, open) && Present(acts, st.Keys)
    ensures Gap(Replay(view, acts), Run(st, acts, value), OpenAfter(open, acts))
  {
    if acts != [] {
      var before, last := acts[..|acts| - 1], acts[|acts| - 1];
      GapAfter(view, st, open, before, value);
      RunKeepsAddresses(st, before, value);
      GapStep(Replay(view, before), Run(st, before, value), OpenAfter(open, before), last, value);
    }
  }

  /** Starting from agreement, after any executable Get rule: a stored key is missing
      from the view exactly when the last action touching it copied it out, and
      nothing else is in the view. */
  lemma {:induction false} GetRuleGap(view: View, st: Stores, acts: seq<Act>, key: string)
    requires Agree(view, st) && GetExecutable(acts, key) && Present(acts, st.Keys)
    ensures var body := acts[..|acts| - 1];
            forall m, k :: InView(Replay(view, GetLog(body)), m, k)
                      <==> Stored(RunGet(st, acts, key).stores, m, k) && !LastTouchCopiesOut(body, m, k)
  {
    var body := acts[..|acts| - 1];
    GetReturnsIff(st, acts, key, "");
    GetLogReplays(view, body);
    GapAfter(view, st, {}, body, "");
    forall m, k ensures (m, k) in OpenAfter({}, body) <==> LastTouchCopiesOut(body, m, k) {
      OpenIffLastTouchCopiesOut(body, m, k);
    }
  }

  lemma {:induction false} PutRuleGap(view: View, st: Stores, acts: seq<Act>, key: string, value: string)
    requires Agree(view, st) && PutSteps(acts, key) && Present(acts, st.Keys) && "" !in st
    ensures forall m, k :: InView(Replay(view, PutLog(acts)), m, k)
                      <==> Stored(PutLoop(st, acts, key, value).stores, m, k) && !LastTouchCopiesOut(acts, m, k)
  {
    PutReturnsIff(st, acts, key, value);
    PutLogReplays(view, acts, key);
    GapAfter(view, st, {}, acts, value);
    forall m, k ensures (m, k) in OpenAfter({}, acts) <==> LastTouchCopiesOut(acts, m, k) {
      OpenIffLastTouchCopiesOut(acts, m, k);
    }
  }

  /** View and stores agree again exactly when no copied-out key is still stored. */
  lemma {:induction false} AgreeIffClosed(view: View, st: Stores, acts: seq<Act>, value: string)
    requires Agree(view, st) && Present(acts, st.Keys)
    ensures Agree(Replay(view, acts), Run(st, acts, value)) <==>
            forall m, k :: Stored(Run(st, acts, value), m, k) ==> !LastTouchCopiesOut(acts, m, k)
  {
    GapAfter(view, st, {}, acts, value);
    forall m, k ensures (m, k) in OpenAfter({}, acts) <==> LastTouchCopiesOut(acts, m, k) {
      OpenIffLastTouchCopiesOut(acts, m, k);
    }
  }

  /** The end-to-end test's rule: Copy to another manager, Remove at the old one,
      Get at the new one. The value is returned, has moved, and the view agrees. */
  lemma {:induction false} MoveRuleKeepsAgreement(view: View, st: Stores, key: string, src: string, dst: string)
    requires Agree(view, st) && src in st && dst in st && src != dst
    ensures var acts := [CopyFromAction(key, src, dst), RemoveAction(key, dst), GetAction(key, src)];
            var out := RunGet(st, acts, key);
            && out.reply == Success(Read(st, dst, key))
            && Agree(Replay(view, GetLog(acts[..2])), out.stores)
            && out.stores == Erase(Write(st, src, key, Read(st, dst, key)), dst, key)
  {
    var copy, remove, get: Act := CopyFromAction(key, src, dst), RemoveAction(key, dst), GetAction(key, src);
    var body := [copy, remove];
    MoveRuleEffect(view, st, key, src, dst);
    AgreeIffClosed(view, st, body, "");
    forall m, k ensures !LastTouchCopiesOut(body, m, k) {
      if CopiesOut(body[0], m, k) { assert Touches(body[1], m, k); }
    }
  }

  lemma {:induction false} MoveRuleEffect(view: View, st: Stores, key: string, src: string, dst: string)
    ensures var copy, remove, get: Act := CopyFromAction(key, src, dst), RemoveAction(key, dst), GetAction(key, src);
            && RunGet(st, [copy, remove, get], key).stores == Run(st, [copy, remove], "")
            && Run(st, [copy, remove], "") == Erase(Write(st, src, key, Read(st, dst, key)), dst, key)
            && RunGet(st, [copy, remove, get], key).reply == Success(Read(Run(st, [copy, remove], ""), src, key))
            && Replay(view, GetLog([copy, remove, get][..2])) == Replay(view, [copy, remove])
  {
    var copy, remove, get: Act := CopyFromAction(key, src, dst), RemoveAction(key, dst), GetAction(key, src);
    var acts, body := [copy, remove, get], [copy, remove];
    assert acts[..|acts| - 1] == body && body[..1] == [copy] && [copy][..0] == [];
    assert Run(st, [], "") == st;
    assert Run(st, [copy], "") == Write(st, src, key, Read(st, dst, key));
    assert body[|body| - 1] == remove;
    GetReturnsIff(st, acts, key, "");
    GetLogReplays(view, body);
  }

  /** Soundness alone survives any actions on running managers. */
  lemma {:induction false} SoundAfter(view: View, st: Stores, acts: seq<Act>, value: string)
    requires Sound(view, st) && Present(acts, st.Keys)
    ensures Sound(Replay(view, acts), Run(st, acts, value))
  {
    if acts != [] {
      var before, last := acts[..|acts| - 1], acts[|acts| - 1];
      SoundAfter(view, st, before, value);
      RunKeepsAddresses(st, before, value);
      forall m, k | InView(Replay(view, acts), m, k) ensures Stored(Run(st, acts, value), m, k) {
        InViewAfterReplay(Replay(view, before), last, m, k);
        StoredAfterEffect(Run(st, before, value), last, value, m, k);
      }
    }
  }

  /** The last action that writes or removes the pair removes it. */
  ghost predicate EndsRemoved(acts: seq<Act>, m: string, k: string) {
    exists i :: 0 <= i < |acts| && Removes(acts[i], m, k)
                && forall j :: i < j < |acts| ==> !Writes(acts[j], m, k)
  }

  ghost predicate EverWritten(acts: seq<Act>, m: string, k: string) {
    exists i :: 0 <= i < |acts| && Writes(acts[i], m, k)
  }

  lemma {:induction false} StoredAfterRun(st: Stores, acts: seq<Act>, value: string, m: string, k: string)
    requires Present(acts, st.Keys)
    ensures Stored(Run(st, acts, value), m, k)
            <==> (Stored(st, m, k) || EverWritten(acts, m, k)) && !EndsRemoved(acts, m, k)
  {
    if acts != [] {
      var n := |acts| - 1;
      var before := acts[..n];
      StoredAfterRun(st, before, value, m, k);
      RunKeepsAddresses(st, before, value);
      StoredAfterEffect(Run(st, before, value), acts[n], value, m, k);
      EndsRemovedSnoc(acts, m, k);
    }
  }

  lemma {:induction false} EndsRemovedSnoc(acts: seq<Act>, m: string, k: string)
    requires acts != []
    ensures var before, last := acts[..|acts| - 1], acts[|acts| - 1];
            && (EndsRemoved(acts, m, k) <==> Removes(last, m, k) || (EndsRemoved(before, m, k) && !Writes(last, m, k)))
            && (EverWritten(acts, m, k) <==> Writes(last, m, k) || EverWritten(before, m, k))
  {
    var n := |acts| - 1;
    var before := acts[..n];
    if EndsRemoved(before, m, k) && !Writes(acts[n], m, k) {
      var i :| 0 <= i < n && Removes(before[i], m, k) && forall j :: i < j < n ==> !Writes(before[j], m, k);
      assert Removes(acts[i], m, k);
    }
    if EndsRemoved(acts, m, k) && !Removes(acts[n], m, k) {
      var i :| 0 <= i <= n && Removes(acts[i], m, k) && forall j :: i < j <= n ==> !Writes(acts[j], m, k);
      assert Removes(before[i], m, k);
    }
    assert forall i :: 0 <= i < n ==> Writes(before[i], m, k) == Writes(acts[i], m, k);
  }

  /** A Get that fails the assertion on its action i loses its log: the view stays sound
      exactly when none of its keys ends removed by the actions before i. */
  lemma {:induction false} AbortedGetSoundIff(view: View, st: Stores, acts: seq<Act>, i: nat, key: string)
    requires i < |acts| - 1 && GetSteps(acts[..i]) && !GetStep(acts[i])
    requires Sound(view, st) && Present(acts[..i], st.Keys)
    ensures var out := RunGet(st, acts, key);
            && !out.reported && out.reply.Failure?
            && (Sound(view, out.stores) <==> forall m, k :: InView(view, m, k) ==> !EndsRemoved(acts[..i], m, k))
  {
    var body := acts[..|acts| - 1];
    assert body[..i] == acts[..i];
    GetLoopRuns(st, acts[..i], "");
    GetLoopStopped(st, body, i);
    forall m, k | InView(view, m, k)
      ensures Stored(RunGet(st, acts, key).stores, m, k) <==> !EndsRemoved(acts[..i], m, k)
    {
      StoredAfterRun(st, acts[..i], "", m, k);
    }
  }

  /** A Get that fails only on its last action has reported by then: its log reached the master,
      and the view stays sound. */
  lemma {:induction false} LateGetKeepsSoundness(view: View, st: Stores, acts: seq<Act>, key: string)
    requires acts != [] && GetSteps(acts[..|acts| - 1])
    requires !acts[|acts| - 1].GetAction? || acts[|acts| - 1].key != key
    ensures var body, out := acts[..|acts| - 1], RunGet(st, acts, key);
            && out.reply.Failure? && out.reported && out.stores == Run(st, body, "")
            && (Sound(view, st) && Present(body, st.Keys) ==> Sound(Replay(view, GetLog(body)), out.stores))
  {
    var body := acts[..|acts| - 1];
    GetLoopRuns(st, body, "");
    GetLogReplays(view, body);
    if Sound(view, st) && Present(body, st.Keys) { SoundAfter(view, st, body, ""); }
  }

  /** What a Put performed when it fails an assertion on its action i: a Remove is carried
      out before it falls through into the failing assertion. */
  function PerformedByPut(acts: seq<Act>, i: nat): seq<Act>
    requires i < |acts|
  {
    if acts[i].RemoveAction? then acts[..i + 1] else acts[..i]
  }

  lemma {:induction false} AbortedPutRuns(st: Stores, acts: seq<Act>, i: nat, key: string, value: string)
    requires i < |acts| && PutSteps(acts[..i], key) && !PutStep(acts[i], key) && "" !in st
    ensures PutLoop(st, acts, key, value) == Exec(Run(st, PerformedByPut(acts, i), value), false)
  {
    PutReturnsIff(st, acts[..i], key, value);
    PutLoopStopped(st, acts, i, key, value);
    assert acts[..i + 1][..i] == acts[..i];
  }

  /** The same for a Put: in particular a Remove in the Put rule of a non-empty key
      takes a key out of the stores that the view goes on claiming. */
  lemma {:induction false} AbortedPutSoundIff(view: View, st: Stores, acts: seq<Act>, i: nat, key: string,
                                              value: string)
    requires i < |acts| && PutSteps(acts[..i], key) && !PutStep(acts[i], key) && "" !in st
    requires Sound(view, st) && Present(PerformedByPut(acts, i), st.Keys)
    ensures var out := PutLoop(st, acts, key, value);
            && !out.ok
            && (Sound(view, out.stores) <==>
                  forall m, k :: InView(view, m, k) ==> !EndsRemoved(PerformedByPut(acts, i), m, k))
  {
    AbortedPutRuns(st, acts, i, key, value);
    forall m, k | InView(view, m, k)
      ensures Stored(PutLoop(st, acts, key, value).stores, m, k) <==> !EndsRemoved(PerformedByPut(acts, i), m, k)
    {
      StoredAfterRun(st, PerformedByPut(acts, i), value, m, k);
    }
  }

  /** A rule that fails an assertion after a Remove breaks soundness: the removal
      happened, the log is lost. */
  lemma {:induction false} AbortedGetBreaksSoundness(view: View, st: Stores, key: string, m: string)
    requires Agree(view, st) && Stored(st, m, key)
    ensures var acts := [RemoveAction(key, m), PutAction(key, m), GetAction(key, m)];
            var out := RunGet(st, acts, key);
            !out.reported && out.reply.Failure? && !Sound(view, out.stores)
  {
    var remove, put, get: Act := RemoveAction(key, m), PutAction(key, m), GetAction(key, m);
    var acts := [remove, put, get];
    assert acts[..|acts| - 1] == [remove, put] && [remove, put][..1] == [remove] && [remove][..0] == [];
    assert GetLoop(st, []) == Exec(st, true);
    assert GetLoop(st, [remove]) == Exec(Erase(st, m, key), true);
    assert GetLoop(st, [remove, put]) == Exec(Erase(st, m, key), false);
    assert InView(view, m, key);
  }
}

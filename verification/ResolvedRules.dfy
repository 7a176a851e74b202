/** The gap and the data results for rules as they really run: resolved by the master,
    performed by URI, reported by name. */
module ResolvedRules {
  import opened Messages
  import opened Interpreter
  import opened ViewGap
  import opened DataSafety
  import opened Resolution

  /** What the master replays after an installed Get or Put. */
  function GetReport(acts: seq<Action<Manager>>): seq<Act>
    requires acts != []
  {
    Labels(GetLog(acts[..|acts| - 1]), ByName)
  }

  function PutReport(acts: seq<Action<Manager>>): seq<Act> {
    Labels(PutLog(acts), ByName)
  }

  /** The rule can be installed, and by name it can run on the named managers. */
  ghost predicate Installable(peers: Peers, st: Stores, rule: Rule) {
    && OneToOne(peers) && AllKnown(peers, rule.actions)
    && Present(Labels(rule.actions, ByName), Named(peers, st).Keys)
  }

  lemma {:induction false} ReportsAreByName(peers: Peers, rule: Rule)
    requires AllKnown(peers, rule.actions)
    ensures var acts := FillIn(peers, rule).value.actions;
            && |acts| == |rule.actions|
            && PutReport(acts) == PutLog(Labels(rule.actions, ByName))
            && (acts != [] ==> GetReport(acts) == GetLog(Labels(rule.actions, ByName)[..|acts| - 1]))
  {
    var acts := FillIn(peers, rule).value.actions;
    FillInChangesOnlyUris(peers, rule);
    PutLogOfLabels(acts, ByName);
    if acts != [] { LogByName(acts, |acts| - 1); }
  }

  /** The exact gap after an installed Get rule: a name's key is in the view exactly when
      its manager stores it and the rule did not last copy it out. */
  lemma {:induction false} InstalledGetGap(peers: Peers, view: View, st: Stores, rule: Rule, key: string)
    requires Installable(peers, st, rule) && GetExecutable(rule.actions, key) && Agree(view, Named(peers, st))
    ensures var acts := FillIn(peers, rule).value.actions;
            var out := RunGet(st, Labels(acts, ByUri), key);
            forall m, k :: InView(Replay(view, GetReport(acts)), m, k) <==>
                           && Stored(Named(peers, out.stores), m, k)
                           && !LastTouchCopiesOut(Labels(rule.actions, ByName)[..|acts| - 1], m, k)
  {
    var acts, named := FillIn(peers, rule).value.actions, Labels(rule.actions, ByName);
    var body := named[..|acts| - 1];
    ReportsAreByName(peers, rule);
    LabelsKeepExecutable(rule.actions, key, ByName);
    ResolvedGetMeansNamedGet(peers, st, rule, key);
    GetRuleGap(view, Named(peers, st), named, key);
    assert GetReport(acts) == GetLog(body) && body == named[..|named| - 1];
  }

  lemma {:induction false} InstalledPutGap(peers: Peers, view: View, st: Stores, rule: Rule, key: string, value: string)
    requires Installable(peers, st, rule) && PutSteps(rule.actions, key) && Agree(view, Named(peers, st))
    requires "" !in st && "" !in peers
    ensures var acts := FillIn(peers, rule).value.actions;
            var out := PutLoop(st, Labels(acts, ByUri), key, value);
            forall m, k :: InView(Replay(view, PutReport(acts)), m, k) <==>
                           && Stored(Named(peers, out.stores), m, k)
                           && !LastTouchCopiesOut(Labels(rule.actions, ByName), m, k)
  {
    ReportsAreByName(peers, rule);
    LabelsKeepSteps(rule.actions, key, ByName);
    ResolvedPutMeansNamedPut(peers, st, rule, key, value);
    PutRuleGap(view, Named(peers, st), Labels(rule.actions, ByName), key, value);
  }

  /** An installed Get for any key, checked by name against the view, keeps the value of k's
      listed copies, and one for k returns it. */
  lemma {:induction false} InstalledGetReturnsValue(peers: Peers, view: View, st: Stores, rule: Rule, key: string,
                                                    k: string, v: string)
    requires Installable(peers, st, rule) && GetExecutable(rule.actions, key)
    requires ListedCopies(view, Named(peers, st), k, v)
    requires CopiesChecked(view, Labels(rule.actions, ByName)[..|rule.actions| - 1], k)
    ensures var acts := FillIn(peers, rule).value.actions;
            var out := RunGet(st, Labels(acts, ByUri), key);
            && ListedCopies(Replay(view, GetReport(acts)), Named(peers, out.stores), k, v)
            && (key == k && GetChecked(view, Labels(rule.actions, ByName), k) ==> out.reply == Success(v))
  {
    ReportsAreByName(peers, rule);
    LabelsKeepExecutable(rule.actions, key, ByName);
    ResolvedGetMeansNamedGet(peers, st, rule, key);
    ListedGetReturnsValue(view, Named(peers, st), Labels(rule.actions, ByName), key, k, v);
  }

  /** An installed Put that by name covers the copies listed in the view sets them all. */
  lemma {:induction false} InstalledPutSetsListed(peers: Peers, view: View, st: Stores, rule: Rule, key: string,
                                                  value: string)
    requires Installable(peers, st, rule) && PutSteps(rule.actions, key)
    requires "" !in st && "" !in peers
    requires ListedCovered(view, Labels(rule.actions, ByName), key)
    ensures var acts := FillIn(peers, rule).value.actions;
            var out := PutLoop(st, Labels(acts, ByUri), key, value);
            out.ok && ListedCopies(Replay(view, PutReport(acts)), Named(peers, out.stores), key, value)
  {
    ReportsAreByName(peers, rule);
    LabelsKeepSteps(rule.actions, key, ByName);
    ResolvedPutMeansNamedPut(peers, st, rule, key, value);
    PutReturnsIff(Named(peers, st), Labels(rule.actions, ByName), key, value);
    PutSetsListed(Named(peers, st), view, Labels(rule.actions, ByName), key, value);
  }
}

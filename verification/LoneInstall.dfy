/** An installation that nobody interrupts: resolving a rule action by action, with other
    steps possible in between, adds up to the master's resolution in one go. */
module LoneInstall {
  import opened Messages
  import opened Resolution
  import opened Cluster
  import opened LoneCall

  /** The rule with its first n actions resolved. */
  function ResolvedUpTo(peers: Peers, client: string, rule: Rule, n: nat): (i: Installing)
    requires AllKnown(peers, rule.actions) && n <= |rule.actions|
    ensures i.client == client && i.done == n && i.rule.opType == rule.opType && i.rule.key == rule.key
    ensures |i.rule.actions| == |rule.actions|
    ensures forall j :: 0 <= j < n ==> i.rule.actions[j] == Resolve(peers, rule.actions[j])
    ensures forall j :: n <= j < |rule.actions| ==> i.rule.actions[j] == rule.actions[j]
  {
    if n == 0 then Installing(client, rule, 0) else Resolved(peers, ResolvedUpTo(peers, client, rule, n - 1))
  }

  /** Only rules under way were added. */
  predicate OnlyInstalling(s: System, w: System) {
    s.installing <= w.installing && w == s.(installing := w.installing)
  }

  lemma {:induction false} ResolvesUpTo(s: System, client: string, rule: Rule, n: nat)
    returns (steps: seq<Step>, w: System)
    requires AllKnown(s.peers, rule.actions) && n <= |rule.actions| && Installing(client, rule, 0) in s.installing
    ensures Leads(s, steps, w) && OnlyInstalling(s, w) && ResolvedUpTo(s.peers, client, rule, n) in w.installing
  {
    if n == 0 {
      LeadsNowhere(s);
      return [], s;
    }
    var before, mid := ResolvesUpTo(s, client, rule, n - 1);
    var next := ResolveNext(ResolvedUpTo(s.peers, client, rule, n - 1));
    LeadsOne(mid, next);
    LeadsOn(s, before, mid, [next], Next(mid, next));
    return before + [next], Next(mid, next);
  }

  /** Asking, resolving and delivering without interruption puts the master's resolution of
      the rule into the client's rules, and changes nothing else. */
  lemma {:induction false} InstallIsFillIn(s: System, name: string, rule: Rule)
    returns (steps: seq<Step>, w: System)
    requires name in s.peers && s.peers[name] in s.rules && AllKnown(s.peers, rule.actions)
    ensures Leads(s, steps, w)
    ensures var client := s.peers[name];
            w == s.(installing := w.installing,
                    rules := s.rules[client := s.rules[client][(rule.opType, rule.key) := FillIn(s.peers, rule).value]])
  {
    var client, n := s.peers[name], |rule.actions|;
    var asked := Next(s, Ask(name, rule));
    LeadsOne(s, Ask(name, rule));
    var resolving, mid := ResolvesUpTo(asked, client, rule, n);
    LeadsOn(s, [Ask(name, rule)], asked, resolving, mid);
    var ready := ResolvedUpTo(s.peers, client, rule, n);
    assert ready.rule.actions == FillIn(s.peers, rule).value.actions;
    assert ready.rule == FillIn(s.peers, rule).value;
    LeadsOne(mid, Deliver(ready));
    LeadsOn(s, [Ask(name, rule)] + resolving, mid, [Deliver(ready)], Next(mid, Deliver(ready)));
    return [Ask(name, rule)] + resolving + [Deliver(ready)], Next(mid, Deliver(ready));
  }
}

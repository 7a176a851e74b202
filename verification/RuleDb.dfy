/** The client's rule database: a map from one concatenated string to a rule. */
module RuleDatabase {
  import opened Messages
  import opened Naming

  function OperationText(op: OperationType): string {
    match op
    case GET => "GET"
    case PUT => "PUT"
    case REMOVE => "REMOVE"
  }

  function RuleKey(key: string, op: OperationType): string {
    Field(OperationText(op), key)
  }

  function Matching(rules: map<string, Rule>, key: string, op: OperationType): Option<Rule> {
    if RuleKey(key, op) in rules then Some(rules[RuleKey(key, op)]) else None
  }

  class RuleDb {
    var rules: map<string, Rule>

    constructor ()
      ensures rules == map[]
    {
      rules := map[];
    }

    method AddRule(r: Rule)
      modifies this
      ensures rules == old(rules)[RuleKey(r.key, r.opType) := r]
    {
      rules := rules[RuleKey(r.key, r.opType) := r];
    }

    method RemoveRule(r: Rule)
      modifies this
      ensures rules == old(rules) - {RuleKey(r.key, r.opType)}
    {
      rules := rules - {RuleKey(r.key, r.opType)};
    }

    method HasMatchingRule(key: string, op: OperationType) returns (found: bool)
      ensures found <==> Matching(rules, key, op).Some?
    {
      found := RuleKey(key, op) in rules;
    }

    method GetMatchingRule(key: string, op: OperationType) returns (r: Result<Rule>)
      ensures match Matching(rules, key, op)
              case Some(rule) => r == Success(rule)
              case None => r == Failure(OutOfRange)
    {
      if RuleKey(key, op) in rules {
        r := Success(rules[RuleKey(key, op)]);
      } else {
        r := Failure(OutOfRange);
      }
    }
  }

  /** One call that changes the database. */
  datatype Edit = Added(rule: Rule) | Removed(rule: Rule)

  /** The contents after a history of calls, as AddRule and RemoveRule make them. */
  function After(edits: seq<Edit>): map<string, Rule> {
    if edits == [] then map[]
    else
      var before := After(edits[..|edits| - 1]);
      match edits[|edits| - 1]
      case Added(r) => before[RuleKey(r.key, r.opType) := r]
      case Removed(r) => before - {RuleKey(r.key, r.opType)}
  }

  /** The reference: the latest edit for exactly this pair decides, by comparing
      the operation and the key themselves. */
  function Latest(edits: seq<Edit>, key: string, op: OperationType): Option<Rule> {
    if edits == [] then None
    else
      var e := edits[|edits| - 1];
      if e.rule.key == key && e.rule.opType == op then
        if e.Added? then Some(e.rule) else None
      else
        Latest(edits[..|edits| - 1], key, op)
  }

  lemma {:induction false} RuleKeyInjective(k: string, o: OperationType, l: string, p: OperationType)
    requires RuleKey(k, o) == RuleKey(l, p)
    ensures k == l && o == p
  {
    SplitUnique(OperationText(o), k, OperationText(p), l);
    assert OperationText(o)[0] == OperationText(p)[0];
  }

  /** Lookup by the concatenated string is lookup by the pair, for every history
      and every key string, keys with colons included. */
  lemma {:induction false} LookupIsLatest(edits: seq<Edit>, key: string, op: OperationType)
    ensures Matching(After(edits), key, op) == Latest(edits, key, op)
  {
    if edits != [] {
      LookupIsLatest(edits[..|edits| - 1], key, op);
      var r := edits[|edits| - 1].rule;
      if RuleKey(r.key, r.opType) == RuleKey(key, op) {
        RuleKeyInjective(r.key, r.opType, key, op);
      }
    }
  }
}

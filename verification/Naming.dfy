/** Peer names generated by the master, and the scheduler's parsing of names and URIs. */
module Naming {
  import opened Messages

  function StorageNameText(n: StorageName): string {
    match n
    case EPHEMERAL => "EPHEMERAL"
    case AMAZONS3 => "AMAZONS3"
    case REDIS => "REDIS"
    case FAKE_PERSISTANT => "FAKE_PERSISTANT"
  }

  function StorageTypeText(t: StorageType): string {
    match t
    case MANAGED => "MANAGED"
    case UNMANAGED => "UNMANAGED"
  }

  function ParseStorageName(text: string): Option<StorageName> {
    if text == "EPHEMERAL" then Some(EPHEMERAL)
    else if text == "AMAZONS3" then Some(AMAZONS3)
    else if text == "REDIS" then Some(REDIS)
    else if text == "FAKE_PERSISTANT" then Some(FAKE_PERSISTANT)
    else None
  }

  /** One colon-terminated field and what follows it. */
  function Field(text: string, rest: string): string {
    text + ":" + rest
  }

  /** The manager name omits the port. */
  function GenerateName(request: IntroduceRequest): string {
    match request
    case ManagerIntroduce(storageType, storageName, hostname, _, _) =>
      Field("manager", Field(StorageNameText(storageName), Field(StorageTypeText(storageType), hostname)))
    case ClientIntroduce(hostname, _) => Field("client", hostname)
    case IntroduceNotSet => "INVALID"
  }

  function HostPort(hostname: string, port: string): string {
    Field(hostname, port)
  }

  /** Index of the first colon, or |s| where the source gets npos. */
  function FirstColon(s: string): (i: nat)
    ensures i <= |s|
    ensures ':' !in s[..i]
    ensures i < |s| ==> s[i] == ':'
    ensures i == |s| <==> ':' !in s
  {
    if s == "" || s[0] == ':' then 0
    else
      var i := FirstColon(s[1..]);
      assert s[..1 + i] == [s[0]] + s[1..][..i];
      assert s == [s[0]] + s[1..];
      1 + i
  }

  function UriToHostname(uri: string): string
    requires ':' in uri
  {
    uri[..FirstColon(uri)]
  }

  predicate TwoColons(name: string) {
    FirstColon(name) < |name| && ':' in name[FirstColon(name) + 1..]
  }

  /** The text between the first and the second colon. */
  function NameToStorageName(name: string): string
    requires TwoColons(name)
  {
    UriToHostname(name[FirstColon(name) + 1..])
  }

  lemma {:induction false} FirstColonOfField(text: string, rest: string)
    ensures ':' in Field(text, rest)
    ensures ':' !in text <==> FirstColon(Field(text, rest)) == |text|
    ensures Field(text, rest)[..|text|] == text
    ensures Field(text, rest)[|text| + 1..] == rest
  {
    var s := Field(text, rest);
    assert s[|text|] == ':' && s[..|text|] == text;
    var i := FirstColon(s);
    assert forall j :: 0 <= j < i ==> s[j] == s[..i][j];
    if i < |text| { assert text[i] == s[i]; }
  }

  lemma {:induction false} SplitUnique(a: string, x: string, b: string, y: string)
    requires ':' !in a && ':' !in b && Field(a, x) == Field(b, y)
    ensures a == b && x == y
  {
    FirstColonOfField(a, x);
    FirstColonOfField(b, y);
  }

  /** A host is recovered from its URI exactly when it has no colon itself. */
  lemma {:induction false} HostPortParsesBack(hostname: string, port: string)
    ensures ':' in HostPort(hostname, port)
    ensures UriToHostname(HostPort(hostname, port)) == hostname <==> ':' !in hostname
  {
    FirstColonOfField(hostname, port);
  }

  /** The name under which rules' authors address the client of a host. */
  lemma {:induction false} ClientNameSpelledOut(hostname: string, port: string)
    ensures GenerateName(ClientIntroduce(hostname, port)) == "client:" + hostname
  {
    assert "client:" == "client" + ":";
  }

  /** Colon-free hosts and their ports are told apart by the URIs. */
  lemma {:induction false} HostPortInjective(hostname: string, port: string, hostname': string, port': string)
    requires ':' !in hostname && ':' !in hostname' && HostPort(hostname, port) == HostPort(hostname', port')
    ensures hostname == hostname' && port == port'
  {
    SplitUnique(hostname, port, hostname', port');
  }

  lemma {:induction false} SecondFieldParsesBack(first: string, second: string, rest: string)
    requires ':' !in first && ':' !in second
    ensures TwoColons(Field(first, Field(second, rest)))
    ensures NameToStorageName(Field(first, Field(second, rest))) == second
  {
    FirstColonOfField(first, Field(second, rest));
    FirstColonOfField(second, rest);
  }

  lemma {:induction false} NoColonInTexts(n: StorageName, t: StorageType)
    ensures ':' !in StorageNameText(n) && ':' !in StorageTypeText(t)
    ensures ParseStorageName(StorageNameText(n)) == Some(n)
  {
  }

  lemma {:induction false} StorageTypeTextInjective(t: StorageType, u: StorageType)
    requires StorageTypeText(t) == StorageTypeText(u)
    ensures t == u
  {
    assert |StorageTypeText(t)| == |StorageTypeText(u)|;
  }

  /** A generated manager name parses back to its storage name, so the scheduler's
      assertion on the parse holds for it. */
  lemma {:induction false} ManagerNameParsesBack(request: IntroduceRequest)
    requires request.ManagerIntroduce?
    ensures TwoColons(GenerateName(request))
    ensures ParseStorageName(NameToStorageName(GenerateName(request))) == Some(request.storageName)
  {
    NoColonInTexts(request.storageName, request.storageType);
    SecondFieldParsesBack("manager", StorageNameText(request.storageName),
                          Field(StorageTypeText(request.storageType), request.hostname));
  }

  lemma {:induction false} ManagerFieldsSplit(a: string, b: string, x: string, c: string, d: string, y: string)
    requires ':' !in a && ':' !in b && ':' !in c && ':' !in d
    requires Field("manager", Field(a, Field(b, x))) == Field("manager", Field(c, Field(d, y)))
    ensures a == c && b == d && x == y
  {
    SplitUnique("manager", Field(a, Field(b, x)), "manager", Field(c, Field(d, y)));
    SplitUnique(a, Field(b, x), c, Field(d, y));
    SplitUnique(b, x, d, y);
  }

  lemma {:induction false} ManagerNamesInjective(r: IntroduceRequest, q: IntroduceRequest)
    requires r.ManagerIntroduce? && q.ManagerIntroduce?
    requires GenerateName(r) == GenerateName(q)
    ensures r.storageName == q.storageName && r.storageType == q.storageType && r.hostname == q.hostname
  {
    NoColonInTexts(r.storageName, r.storageType);
    NoColonInTexts(q.storageName, q.storageType);
    ManagerFieldsSplit(StorageNameText(r.storageName), StorageTypeText(r.storageType), r.hostname,
                       StorageNameText(q.storageName), StorageTypeText(q.storageType), q.hostname);
    StorageTypeTextInjective(r.storageType, q.storageType);
  }

  /** Two introductions get the same name exactly when they are the same kind of
      peer on the same host (and, for managers, over the same storage); ports never matter. */
  lemma {:induction false} NamesEqualIff(r: IntroduceRequest, q: IntroduceRequest)
    ensures GenerateName(r) == GenerateName(q) <==>
            || (r.ClientIntroduce? && q.ClientIntroduce? && r.hostname == q.hostname)
            || (r.ManagerIntroduce? && q.ManagerIntroduce? && r.storageName == q.storageName
                && r.storageType == q.storageType && r.hostname == q.hostname)
            || (r.IntroduceNotSet? && q.IntroduceNotSet?)
  {
    if GenerateName(r) == GenerateName(q) {
      if r.ManagerIntroduce? && q.ManagerIntroduce? {
        ManagerNamesInjective(r, q);
      } else if r.ClientIntroduce? && q.ClientIntroduce? {
        SplitUnique("client", r.hostname, "client", q.hostname);
      } else {
        assert GenerateName(r)[0] == GenerateName(q)[0];
      }
    }
  }
}

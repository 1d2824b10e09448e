/**
 * Fingerprints of what a model call depends on, and the cache key made of them. The digest is a
 * parameter that is assumed to be injective.
 */
module LlmFingerprints {
  import opened Models
  import opened Text
  import opened Sorting
  import opened JsonText

  ghost predicate Injective(digest: string -> string) {
    forall a, b :: digest(a) == digest(b) ==> a == b
  }

  function StringsValue(s: seq<string>): Values {
    if s == [] then Nil else Cons(Str(s[0]), StringsValue(s[1..]))
  }

  function OptionalString(s: Option<string>): Value {
    if s.None? then Null else Str(s.value)
  }

  lemma {:induction false} StringsValueInjective(a: seq<string>, b: seq<string>)
    requires StringsValue(a) == StringsValue(b)
    ensures a == b
  {
    if a != [] && b != [] {
      StringsValueInjective(a[1..], b[1..]);
      assert a == [a[0]] + a[1..] && b == [b[0]] + b[1..];
    }
  }

  // ------------------------------------------------------------------ findings of a group

  /** The two columns that enter the group fingerprint. */
  datatype GroupFinding = GroupFinding(identifierKey: string, packagePurl: Option<string>)

  function PairOf(f: GroupFinding): (string, string) {
    (f.identifierKey, OrEmpty(f.packagePurl))
  }

  function Pairs(findings: seq<GroupFinding>): seq<(string, string)> {
    seq(|findings|, k requires 0 <= k < |findings| => PairOf(findings[k]))
  }

  function First(p: (string, string)): string { p.0 }
  function Second(p: (string, string)): string { p.1 }

  /** The order of Python tuples of two strings. */
  function PairLeq(): ((string, string), (string, string)) -> bool {
    Then(By(First, StringLeq), By(Second, StringLeq))
  }

  function PairsValue(s: seq<(string, string)>): Values {
    if s == [] then Nil else Cons(List(Cons(Str(s[0].0), Cons(Str(s[0].1), Nil))), PairsValue(s[1..]))
  }

  function GroupFindingsFingerprint(digest: string -> string, findings: seq<GroupFinding>): string {
    digest(Dumps(List(PairsValue(Sort(PairLeq(), Pairs(findings))))))
  }

  lemma {:induction false} PairsValueInjective(a: seq<(string, string)>, b: seq<(string, string)>)
    requires PairsValue(a) == PairsValue(b)
    ensures a == b
  {
    if a != [] && b != [] {
      PairsValueInjective(a[1..], b[1..]);
      assert a == [a[0]] + a[1..] && b == [b[0]] + b[1..];
    }
  }

  lemma PairLeqOrder()
    ensures TotalPreorder(PairLeq())
  {
    StringLeqOrder();
    ByOrder(First, StringLeq);
    ByOrder(Second, StringLeq);
    hide TotalPreorder, By, Then;
    ThenOrder(By(First, StringLeq), By(Second, StringLeq));
  }

  lemma PairLeqSeparates(s: seq<(string, string)>)
    ensures Separates(PairLeq(), s)
  {
    var first, second := By(First, StringLeq), By(Second, StringLeq);
    forall x, y | x in s && y in s && PairLeq()(x, y) && PairLeq()(y, x)
      ensures x == y
    {
      ThenTies(first, second, x, y);
      StringLeqTotal(x.0, y.0);
      StringLeqTotal(x.1, y.1);
      hide Then, StringLeq;
      assert First(x) == First(y) && Second(x) == Second(y);
    }
  }

  /** Sorting under an order without ties forgets the order and nothing else. */
  lemma SortEqualIff<T(!new)>(leq: (T, T) -> bool, a: seq<T>, b: seq<T>)
    requires TotalPreorder(leq) && Separates(leq, Sort(leq, a))
    ensures Sort(leq, a) == Sort(leq, b) <==> multiset(a) == multiset(b)
  {
    SortSorts(leq, a);
    SortSorts(leq, b);
    if multiset(a) == multiset(b) {
      SortedUnique(leq, Sort(leq, a), Sort(leq, b));
    }
  }

  /** Two finding lists have one fingerprint exactly when they are the same multiset of (identifier, purl or ""). */
  lemma GroupFingerprintIff(digest: string -> string, a: seq<GroupFinding>, b: seq<GroupFinding>)
    requires Injective(digest)
    ensures GroupFindingsFingerprint(digest, a) == GroupFindingsFingerprint(digest, b)
       <==> multiset(Pairs(a)) == multiset(Pairs(b))
  {
    var x, y := Sort(PairLeq(), Pairs(a)), Sort(PairLeq(), Pairs(b));
    PairLeqOrder();
    PairLeqSeparates(x);
    hide PairLeq, Dumps, PairsValue, Sort;
    SortEqualIff(PairLeq(), Pairs(a), Pairs(b));
    if GroupFindingsFingerprint(digest, a) == GroupFindingsFingerprint(digest, b) {
      DumpsInjective(List(PairsValue(x)), List(PairsValue(y)));
      PairsValueInjective(x, y);
    }
  }

  // ------------------------------------------------------------------ server context

  datatype Listener = Listener(proto: string, addr: string, port: int, process: Option<string>)

  datatype ServerContext = ServerContext(
    osFamily: Option<string>,
    osVersion: Option<string>,
    kernelVersion: Option<string>,
    tags: seq<string>,
    listeners: seq<Listener>,
    comms: seq<Option<string>>,
    modules: seq<string>,
    services: seq<string>,
    gaps: seq<string>)

  type ListenerRow = (string, string, int, string)

  function RowOf(l: Listener): ListenerRow {
    (l.proto, l.addr, l.port, OrEmpty(l.process))
  }

  function ListenerRows(listeners: seq<Listener>): seq<ListenerRow> {
    seq(|listeners|, k requires 0 <= k < |listeners| => RowOf(listeners[k]))
  }

  function Proto(r: ListenerRow): string { r.0 }
  function Addr(r: ListenerRow): string { r.1 }
  function Port(r: ListenerRow): int { r.2 }
  function Process(r: ListenerRow): string { r.3 }

  function RowLeq(): (ListenerRow, ListenerRow) -> bool {
    Then(By(Proto, StringLeq), Then(By(Addr, StringLeq), Then(By(Port, IntLeq), By(Process, StringLeq))))
  }

  /** The non-empty process names, each once: `{c for c in comms if c}`. */
  function CommNames(comms: seq<Option<string>>): seq<string> {
    if comms == [] then []
    else
      var names, last := CommNames(comms[..|comms| - 1]), OrEmpty(comms[|comms| - 1]);
      if last == "" || last in names then names else names + [last]
  }

  function RowsValue(s: seq<ListenerRow>): Values {
    if s == [] then Nil
    else Cons(List(Cons(Str(s[0].0), Cons(Str(s[0].1), Cons(Number(s[0].2), Cons(Str(s[0].3), Nil))))),
              RowsValue(s[1..]))
  }

  function SortedStrings(s: seq<string>): Value {
    List(StringsValue(Sort(StringLeq, s)))
  }

  /** The members in the order of their keys. */
  function ContextValue(c: ServerContext): Value {
    Obj(Member("gaps", SortedStrings(c.gaps),
        Member("kernel_modules", SortedStrings(c.modules),
        Member("kernel_version", OptionalString(c.kernelVersion),
        Member("listeners", List(RowsValue(Sort(RowLeq(), ListenerRows(c.listeners)))),
        Member("os_family", OptionalString(c.osFamily),
        Member("os_version", OptionalString(c.osVersion),
        Member("process_comms", SortedStrings(CommNames(c.comms)),
        Member("services", SortedStrings(c.services),
        Member("tags", SortedStrings(c.tags), NoMore))))))))))
  }

  /** The names of an object, and the value under a name. */
  function NamesOf(m: Members): seq<string> {
    if m.NoMore? then [] else [m.key] + NamesOf(m.rest)
  }

  function ValueAt(m: Members, name: string): Option<Value> {
    if m.NoMore? then None else if m.key == name then Some(m.value) else ValueAt(m.rest, name)
  }

  /** The names of the context, sorted, and which column stands under which. */
  lemma ContextSays(c: ServerContext)
    ensures
      var m := ContextValue(c).members;
      && NamesOf(m) == ["gaps", "kernel_modules", "kernel_version", "listeners", "os_family", "os_version",
                        "process_comms", "services", "tags"]
      && ValueAt(m, "os_family") == Some(OptionalString(c.osFamily))
      && ValueAt(m, "os_version") == Some(OptionalString(c.osVersion))
      && ValueAt(m, "kernel_version") == Some(OptionalString(c.kernelVersion))
      && ValueAt(m, "gaps") == Some(SortedStrings(c.gaps)) && ValueAt(m, "tags") == Some(SortedStrings(c.tags))
      && ValueAt(m, "kernel_modules") == Some(SortedStrings(c.modules))
      && ValueAt(m, "services") == Some(SortedStrings(c.services))
      && ValueAt(m, "process_comms") == Some(SortedStrings(CommNames(c.comms)))
  {
    hide SortedStrings, OptionalString, RowsValue, Sort, CommNames, ListenerRows;
    var upper := ContextValue(c).members.rest.rest.rest;
    var last := upper.rest.rest.rest;
    NamedThrice(last);
    NamedThrice(upper);
    NamedThrice(ContextValue(c).members);
    assert NamesOf(last.rest.rest.rest) == [];
    hide NamesOf, ValueAt;
  }

  lemma NamedThrice(m: Members)
    requires m.Member? && m.rest.Member? && m.rest.rest.Member?
    ensures NamesOf(m) == [m.key, m.rest.key, m.rest.rest.key] + NamesOf(m.rest.rest.rest)
    ensures forall name :: ValueAt(m, name)
                        == if name == m.key then Some(m.value)
                           else if name == m.rest.key then Some(m.rest.value)
                           else if name == m.rest.rest.key then Some(m.rest.rest.value)
                           else ValueAt(m.rest.rest.rest, name)
  {
    NamedFirst(m);
    NamedFirst(m.rest);
    NamedFirst(m.rest.rest);
    hide NamesOf, ValueAt;
  }

  lemma NamedFirst(m: Members)
    requires m.Member?
    ensures NamesOf(m) == [m.key] + NamesOf(m.rest)
    ensures forall name :: ValueAt(m, name) == if name == m.key then Some(m.value) else ValueAt(m.rest, name)
  {}

  function ServerContextFingerprint(digest: string -> string, c: ServerContext): string {
    digest(Dumps(ContextValue(c)))
  }

  lemma {:induction false} RowsValueInjective(a: seq<ListenerRow>, b: seq<ListenerRow>)
    requires RowsValue(a) == RowsValue(b)
    ensures a == b
  {
    if a != [] && b != [] {
      RowsValueInjective(a[1..], b[1..]);
      assert a == [a[0]] + a[1..] && b == [b[0]] + b[1..];
    }
  }

  lemma RowLeqOrder()
    ensures TotalPreorder(RowLeq())
  {
    StringLeqOrder();
    IntLeqOrder();
    ByOrder(Proto, StringLeq);
    ByOrder(Addr, StringLeq);
    ByOrder(Port, IntLeq);
    ByOrder(Process, StringLeq);
    hide TotalPreorder, By, Then;
    var last := Then(By(Port, IntLeq), By(Process, StringLeq));
    ThenOrder(By(Port, IntLeq), By(Process, StringLeq));
    ThenOrder(By(Addr, StringLeq), last);
    ThenOrder(By(Proto, StringLeq), Then(By(Addr, StringLeq), last));
  }

  lemma RowLeqSeparates(s: seq<ListenerRow>)
    ensures Separates(RowLeq(), s)
  {
    var proto, addr := By(Proto, StringLeq), By(Addr, StringLeq);
    var port, process := By(Port, IntLeq), By(Process, StringLeq);
    forall x, y | x in s && y in s && RowLeq()(x, y) && RowLeq()(y, x)
      ensures x == y
    {
      ThenTies(port, process, x, y);
      ThenTies(addr, Then(port, process), x, y);
      ThenTies(proto, Then(addr, Then(port, process)), x, y);
      StringLeqTotal(x.0, y.0);
      StringLeqTotal(x.1, y.1);
      StringLeqTotal(x.3, y.3);
      hide Then, StringLeq;
      assert proto(x, y) && proto(y, x) && addr(x, y) && addr(y, x) && process(x, y) && process(y, x);
      assert Proto(x) == Proto(y) && Addr(x) == Addr(y) && Process(x) == Process(y);
      assert IntLeq(Port(x), Port(y)) && IntLeq(Port(y), Port(x));
    }
  }

  lemma StringsSeparate(s: seq<string>)
    ensures Separates(StringLeq, s)
  {
    forall x, y | x in s && y in s && StringLeq(x, y) && StringLeq(y, x)
      ensures x == y
    {
      StringLeqTotal(x, y);
    }
  }

  lemma SortedStringsIff(a: seq<string>, b: seq<string>)
    ensures SortedStrings(a) == SortedStrings(b) <==> multiset(a) == multiset(b)
  {
    StringLeqOrder();
    StringsSeparate(Sort(StringLeq, a));
    SortEqualIff(StringLeq, a, b);
    if SortedStrings(a) == SortedStrings(b) {
      StringsValueInjective(Sort(StringLeq, a), Sort(StringLeq, b));
    }
  }

  function NameSet(comms: seq<Option<string>>): set<string> {
    set c | c in comms && OrEmpty(c) != "" :: OrEmpty(c)
  }

  lemma {:induction false} CommNamesAreSet(comms: seq<Option<string>>)
    ensures multiset(CommNames(comms)) == multiset(NameSet(comms))
  {
    if comms == [] {
      assert NameSet(comms) == {};
    } else {
      var before, last := comms[..|comms| - 1], comms[|comms| - 1];
      CommNamesAreSet(before);
      assert comms == before + [last];
      assert NameSet(comms) == NameSet(before) + if OrEmpty(last) == "" then {} else {OrEmpty(last)};
      assert OrEmpty(last) in CommNames(before) <==> OrEmpty(last) in multiset(CommNames(before));
    }
  }

  lemma CommNamesIff(a: seq<Option<string>>, b: seq<Option<string>>)
    ensures multiset(CommNames(a)) == multiset(CommNames(b)) <==> NameSet(a) == NameSet(b)
  {
    CommNamesAreSet(a);
    CommNamesAreSet(b);
    if multiset(NameSet(a)) == multiset(NameSet(b)) {
      forall n
        ensures n in NameSet(a) <==> n in NameSet(b)
      {
        assert n in multiset(NameSet(a)) <==> n in multiset(NameSet(b));
      }
    }
  }

  lemma ListenersIff(a: seq<Listener>, b: seq<Listener>)
    ensures RowsValue(Sort(RowLeq(), ListenerRows(a))) == RowsValue(Sort(RowLeq(), ListenerRows(b)))
       <==> multiset(ListenerRows(a)) == multiset(ListenerRows(b))
  {
    var x, y := Sort(RowLeq(), ListenerRows(a)), Sort(RowLeq(), ListenerRows(b));
    RowLeqOrder();
    RowLeqSeparates(x);
    hide RowLeq, RowsValue, Sort;
    SortEqualIff(RowLeq(), ListenerRows(a), ListenerRows(b));
    if RowsValue(x) == RowsValue(y) {
      RowsValueInjective(x, y);
    }
  }

  /** What the server fingerprint sees: processes as a set of names, the other lists as multisets. */
  ghost predicate SameContext(a: ServerContext, b: ServerContext) {
    && a.osFamily == b.osFamily && a.osVersion == b.osVersion && a.kernelVersion == b.kernelVersion
    && multiset(a.tags) == multiset(b.tags)
    && multiset(ListenerRows(a.listeners)) == multiset(ListenerRows(b.listeners))
    && NameSet(a.comms) == NameSet(b.comms)
    && multiset(a.modules) == multiset(b.modules)
    && multiset(a.services) == multiset(b.services)
    && multiset(a.gaps) == multiset(b.gaps)
  }

  lemma ServerFingerprintIff(digest: string -> string, a: ServerContext, b: ServerContext)
    requires Injective(digest)
    ensures ServerContextFingerprint(digest, a) == ServerContextFingerprint(digest, b) <==> SameContext(a, b)
  {
    SortedStringsIff(a.tags, b.tags);
    SortedStringsIff(CommNames(a.comms), CommNames(b.comms));
    CommNamesIff(a.comms, b.comms);
    SortedStringsIff(a.modules, b.modules);
    SortedStringsIff(a.services, b.services);
    SortedStringsIff(a.gaps, b.gaps);
    ListenersIff(a.listeners, b.listeners);
    hide Dumps, SortedStrings, RowsValue, RowLeq, Sort, CommNames, NameSet, ListenerRows;
    if ServerContextFingerprint(digest, a) == ServerContextFingerprint(digest, b) {
      DumpsInjective(ContextValue(a), ContextValue(b));
    }
    assert ContextValue(a) == ContextValue(b) <==> SameContext(a, b);
  }

  // ------------------------------------------------------------------ cache key

  const PASS2_PROMPT_VERSION := 7

  datatype KeyParts = KeyParts(groupId: nat, groupFindingsFp: string, cveDataFp: string, serverContextFp: string,
                               fixLane: Option<string>)

  function KeyPayload(p: KeyParts): string {
    PrintNat(p.groupId) + ("|" + (p.groupFindingsFp
      + ("|" + (p.cveDataFp + ("|" + (p.serverContextFp + ("|" + VersionAndLane(p.fixLane))))))))
  }

  function VersionAndLane(fixLane: Option<string>): string {
    "v" + PrintNat(PASS2_PROMPT_VERSION) + if fixLane.Some? then "|lane=" + fixLane.value else ""
  }

  /** The text under the digest, with the version of the prompt. */
  lemma KeySays(p: KeyParts)
    ensures KeyPayload(p)
         == PrintNat(p.groupId) + "|" + p.groupFindingsFp + "|" + p.cveDataFp + "|" + p.serverContextFp + "|"
            + ("v" + PrintNat(7) + if p.fixLane == None then "" else "|lane=" + p.fixLane.value)
  {
    hide PrintNat;
    var version := VersionAndLane(p.fixLane);
    assert version == "v" + PrintNat(7) + if p.fixLane == None then "" else "|lane=" + p.fixLane.value;
    hide VersionAndLane;
    Bars(PrintNat(p.groupId), "|", p.groupFindingsFp, p.cveDataFp, p.serverContextFp, version);
  }

  lemma Bars(a: string, bar: string, b: string, c: string, d: string, e: string)
    ensures a + (bar + (b + (bar + (c + (bar + (d + (bar + e))))))) == a + bar + b + bar + c + bar + d + bar + e
  {}

  function MakeCacheKey(digest: string -> string, p: KeyParts): string {
    digest(KeyPayload(p))
  }

  predicate PlainFingerprints(p: KeyParts) {
    '|' !in p.groupFindingsFp && '|' !in p.cveDataFp && '|' !in p.serverContextFp
  }

  lemma PeelField(a: string, x: string, b: string, y: string)
    requires '|' !in a && '|' !in b
    requires a + ("|" + x) == b + ("|" + y)
    ensures a == b && x == y
  {
    BarAt(a, x);
    BarAt(b, y);
    assert |a| == |b|;
    Peel(a, "|" + x, b, "|" + y);
    Peel("|", x, "|", y);
  }

  lemma BarAt(a: string, x: string)
    requires '|' !in a
    ensures forall k :: 0 <= k < |a| ==> (a + ("|" + x))[k] != '|'
    ensures (a + ("|" + x))[|a|] == '|'
  {
    assert forall k :: 0 <= k < |a| ==> a[k] in a;
  }

  lemma VersionAndLaneUnique(a: Option<string>, b: Option<string>)
    requires VersionAndLane(a) == VersionAndLane(b)
    ensures a == b
  {
    var v := "v" + PrintNat(PASS2_PROMPT_VERSION);
    hide PrintNat;
    var x, y := if a.Some? then "|lane=" + a.value else "", if b.Some? then "|lane=" + b.value else "";
    Peel(v, x, v, y);
    assert |x| == |y|;
    if a.Some? && b.Some? {
      Peel("|lane=", a.value, "|lane=", b.value);
    }
  }

  lemma NoBarInNumber(n: nat)
    ensures '|' !in PrintNat(n)
  {
    DigitsOfPrint(n);
  }

  /** Cache keys are equal exactly when the group, the three fingerprints and the optional lane are. */
  lemma CacheKeyIff(digest: string -> string, p: KeyParts, q: KeyParts)
    requires Injective(digest) && PlainFingerprints(p) && PlainFingerprints(q)
    ensures MakeCacheKey(digest, p) == MakeCacheKey(digest, q) <==> p == q
  {
    if MakeCacheKey(digest, p) == MakeCacheKey(digest, q) {
      assert KeyPayload(p) == KeyPayload(q);
      hide PrintNat, VersionAndLane;
      NoBarInNumber(p.groupId);
      NoBarInNumber(q.groupId);
      var p3 := p.serverContextFp + ("|" + VersionAndLane(p.fixLane));
      var q3 := q.serverContextFp + ("|" + VersionAndLane(q.fixLane));
      var p2, q2 := p.cveDataFp + ("|" + p3), q.cveDataFp + ("|" + q3);
      PeelField(PrintNat(p.groupId), p.groupFindingsFp + ("|" + p2),
                PrintNat(q.groupId), q.groupFindingsFp + ("|" + q2));
      PeelField(p.groupFindingsFp, p2, q.groupFindingsFp, q2);
      PeelField(p.cveDataFp, p3, q.cveDataFp, q3);
      PeelField(p.serverContextFp, VersionAndLane(p.fixLane), q.serverContextFp, VersionAndLane(q.fixLane));
      VersionAndLaneUnique(p.fixLane, q.fixLane);
      DigitsOfPrint(p.groupId);
      DigitsOfPrint(q.groupId);
    }
  }
}

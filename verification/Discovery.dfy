/** What discovery knows after a sequence of record contributions, and the services it reports. */
module Discovery {
  import opened Net
  import opened Bits
  import opened Sequences
  import opened DnsName
  import opened DnsMessage

  datatype Srv = Srv(target: Text, port: U16)

  datatype Known = Known(srvs: map<Text, Srv>, addrs: map<Text, seq<IpAddr>>, ptrs: seq<(ServiceKind, Text)>)

  const NOTHING_KNOWN: Known := Known(map[], map[], [])

  datatype AdbService = AdbService(kind: ServiceKind, instance: Text, ip: IpAddr, ips: seq<IpAddr>, port: U16)

  // ---- Address preference ----

  /** The fe80::/10 prefix of section 2.5.6 of RFC 4291. */
  predicate IsLinkLocal(octets: Octets) {
    And((octets[0] as nat) * 0x100 + octets[1], 0xFFC0) == 0xFE80
  }

  function AddrPriority(ip: IpAddr): nat {
    match ip
    case V4(_) => 0
    case V6(octets) => if IsLinkLocal(octets) then 2 else 1
  }

  predicate AddrLeq(a: IpAddr, b: IpAddr) {
    AddrPriority(a) <= AddrPriority(b)
  }

  /** The mask picks out the first ten bits. */
  lemma LinkLocalPrefix(octets: Octets)
    ensures IsLinkLocal(octets) <==> octets[0] == 0xFE && octets[1] / 64 == 2
  {
    MaskedSegment((octets[0] as nat) * 0x100 + octets[1]);
  }

  lemma MaskedSegment(segment: U16)
    ensures And(segment, 0xFFC0) == segment - segment % 0x40
  {
    Pow2Values();
    AndHighMask(segment, 6, 16);
  }

  function OfClass(list: seq<IpAddr>, rank: nat): seq<IpAddr> {
    if list == [] then []
    else
      var n := |list| - 1;
      OfClass(list[..n], rank) + if AddrPriority(list[n]) == rank then [list[n]] else []
  }

  lemma {:induction false} ClassesHold(list: seq<IpAddr>, rank: nat)
    ensures forall ip :: ip in OfClass(list, rank) ==> AddrPriority(ip) == rank
  {
    if list != [] {
      ClassesHold(list[..|list| - 1], rank);
    }
  }

  /** Sorting by preference is: the IPv4 addresses, then the global IPv6 ones, then the link-local
      ones, each class in its original order. */
  lemma {:induction false} SortedByPreference(list: seq<IpAddr>)
    ensures StableSort(AddrLeq, list) == OfClass(list, 0) + OfClass(list, 1) + OfClass(list, 2)
  {
    hide AddrPriority;
    if list != [] {
      var n := |list| - 1;
      SortedByPreference(list[..n]);
      PreferenceInsert(list[..n], list[n]);
    }
  }

  lemma PreferenceInsert(front: seq<IpAddr>, x: IpAddr)
    ensures var list := front + [x];
            Insert(AddrLeq, OfClass(front, 0) + OfClass(front, 1) + OfClass(front, 2), x)
            == OfClass(list, 0) + OfClass(list, 1) + OfClass(list, 2)
  {
    hide Insert, IsLinkLocal;
    var a, b, c := OfClass(front, 0), OfClass(front, 1), OfClass(front, 2);
    ClassesHold(front, 0);
    ClassesHold(front, 1);
    ClassesHold(front, 2);
    InsertIntoClasses(a, b, c, x);
    assert (front + [x])[..|front|] == front;
    assert a + [] == a && b + [] == b && c + [] == c;
  }

  lemma InsertIntoClasses(a: seq<IpAddr>, b: seq<IpAddr>, c: seq<IpAddr>, x: IpAddr)
    requires forall ip :: ip in a ==> AddrPriority(ip) == 0
    requires forall ip :: ip in b ==> AddrPriority(ip) == 1
    requires forall ip :: ip in c ==> AddrPriority(ip) == 2
    ensures Insert(AddrLeq, a + b + c, x)
         == match AddrPriority(x)
            case 0 => (a + [x]) + b + c
            case 1 => a + (b + [x]) + c
            case _ => a + b + (c + [x])
  {
    hide Insert, IsLinkLocal;
    match AddrPriority(x)
    case 0 =>
      InsertBetween(AddrLeq, a, b + c, x);
      assert a + b + c == a + (b + c);
    case 1 =>
      InsertBetween(AddrLeq, a + b, c, x);
    case _ =>
      InsertBetween(AddrLeq, a + b + c, [], x);
      assert a + b + c + [] == a + b + c;
  }

  // ---- Learning ----

  function AddressesOf(k: Known, host: Text): seq<IpAddr> {
    if host in k.addrs then k.addrs[host] else []
  }

  /** Keep a new address in preference order; a known one changes nothing. */
  function Keep(list: seq<IpAddr>, ip: IpAddr): seq<IpAddr> {
    if ip in list then list else StableSort(AddrLeq, list + [ip])
  }

  function Learn(k: Known, fact: Fact): Known {
    match fact
    case Pointer(kind, instance) => k.(ptrs := k.ptrs + [(kind, instance)])
    case Service(name, target, port) => k.(srvs := k.srvs[name := Srv(target, port)])
    case Address(host, ip) => k.(addrs := k.addrs[host := Keep(AddressesOf(k, host), ip)])
    case Nothing => k
  }

  function LearnAll(k: Known, facts: seq<Fact>): Known {
    if facts == [] then k else Learn(LearnAll(k, facts[..|facts| - 1]), facts[|facts| - 1])
  }

  lemma {:induction false} LearnTwice(k: Known, a: seq<Fact>, b: seq<Fact>)
    ensures LearnAll(k, a + b) == LearnAll(LearnAll(k, a), b)
    decreases |b|
  {
    if b == [] {
      assert a + b == a;
    } else {
      var n := |b| - 1;
      LearnTwice(k, a, b[..n]);
      assert (a + b)[..|a + b| - 1] == a + b[..n];
    }
  }

  // ---- The batch view: what the tables hold, told from the facts alone ----

  function PointerIn(fact: Fact): seq<(ServiceKind, Text)> {
    if fact.Pointer? then [(fact.kind, fact.instance)] else []
  }

  function ArrivalAt(host: Text): Fact -> seq<IpAddr> {
    (fact: Fact) => if fact.Address? && fact.host == host then [fact.ip] else []
  }

  function Pointers(facts: seq<Fact>): seq<(ServiceKind, Text)> {
    Collect(PointerIn, facts)
  }

  /** The addresses that arrived for a host, in order, repeats included. */
  function Arrivals(facts: seq<Fact>, host: Text): seq<IpAddr> {
    Collect(ArrivalAt(host), facts)
  }

  function LastService(facts: seq<Fact>, name: Text): Option<Srv> {
    if facts == [] then None
    else
      var f := facts[|facts| - 1];
      if f.Service? && f.name == name then Some(Srv(f.target, f.port)) else LastService(facts[..|facts| - 1], name)
  }

  /** The preference order of the first occurrences. */
  function Preferred(arrivals: seq<IpAddr>): seq<IpAddr> {
    StableSort(AddrLeq, FirstOccurrences(arrivals))
  }

  lemma AddrOrder()
    ensures TotalPreorder(AddrLeq)
  {
  }

  lemma PreferredElements(arrivals: seq<IpAddr>, ip: IpAddr)
    ensures ip in Preferred(arrivals) <==> ip in arrivals
  {
    hide AddrPriority;
    AddrOrder();
    StableSortSorts(AddrLeq, FirstOccurrences(arrivals));
    FirstOccurrencesElements(arrivals);
    assert ip in Preferred(arrivals) <==> ip in multiset(Preferred(arrivals));
    assert ip in FirstOccurrences(arrivals) <==> ip in multiset(FirstOccurrences(arrivals));
  }

  /** One more arrival, incrementally or in one go. */
  lemma KeepIsPreferred(arrivals: seq<IpAddr>, ip: IpAddr)
    ensures Keep(Preferred(arrivals), ip) == Preferred(arrivals + [ip])
  {
    hide StableSort, AddrPriority;
    AddrOrder();
    PreferredElements(arrivals, ip);
    assert (arrivals + [ip])[..|arrivals|] == arrivals;
    StableSortIncremental(AddrLeq, FirstOccurrences(arrivals), ip);
  }

  // ---- The same order, told by the addresses themselves ----

  function IfV4(ip: IpAddr): seq<IpAddr> {
    if ip.V4? then [ip] else []
  }

  /** An IPv6 address outside fe80::/10. */
  function IfGlobalV6(ip: IpAddr): seq<IpAddr> {
    if ip.V6? && !(ip.octets[0] == 0xFE && ip.octets[1] / 64 == 2) then [ip] else []
  }

  function IfLinkLocalV6(ip: IpAddr): seq<IpAddr> {
    if ip.V6? && ip.octets[0] == 0xFE && ip.octets[1] / 64 == 2 then [ip] else []
  }

  /** The IPv4 addresses, then the IPv6 ones outside fe80::/10, then those inside, each in order. */
  function ByFamily(list: seq<IpAddr>): seq<IpAddr> {
    Collect(IfV4, list) + Collect(IfGlobalV6, list) + Collect(IfLinkLocalV6, list)
  }

  lemma {:induction false} ClassesAreFamilies(list: seq<IpAddr>)
    ensures OfClass(list, 0) == Collect(IfV4, list)
    ensures OfClass(list, 1) == Collect(IfGlobalV6, list)
    ensures OfClass(list, 2) == Collect(IfLinkLocalV6, list)
  {
    hide IsLinkLocal;
    if list != [] {
      var n := |list| - 1;
      ClassesAreFamilies(list[..n]);
      if list[n].V6? {
        LinkLocalPrefix(list[n].octets);
      }
    }
  }

  /** The addresses kept for a host: those that arrived, each once, by family and then by arrival. */
  lemma PreferredByFamily(arrivals: seq<IpAddr>)
    ensures Preferred(arrivals) == ByFamily(FirstOccurrences(arrivals))
  {
    hide FirstOccurrences, StableSort, AddrLeq, OfClass;
    SortedByPreference(FirstOccurrences(arrivals));
    ClassesAreFamilies(FirstOccurrences(arrivals));
  }

  lemma FamilyMembers(list: seq<IpAddr>, ip: IpAddr)
    ensures ip in Collect(IfV4, list) <==> ip in list && ip.V4?
    ensures ip in Collect(IfGlobalV6, list) <==> ip in list && IfGlobalV6(ip) == [ip]
    ensures ip in Collect(IfLinkLocalV6, list) <==> ip in list && IfLinkLocalV6(ip) == [ip]
  {
    Selected(IfV4, list, ip);
    Selected(IfGlobalV6, list, ip);
    Selected(IfLinkLocalV6, list, ip);
  }

  lemma Selected(f: IpAddr -> seq<IpAddr>, list: seq<IpAddr>, ip: IpAddr)
    requires forall x :: f(x) == [x] || f(x) == []
    ensures ip in Collect(f, list) <==> ip in list && f(ip) == [ip]
  {
    if ip in Collect(f, list) {
      var i := CollectSource<IpAddr, IpAddr>(f, list, ip);
    }
    if ip in list && f(ip) == [ip] {
      var i :| 0 <= i < |list| && list[i] == ip;
      CollectReaches<IpAddr, IpAddr>(f, list, i, ip);
    }
  }

  /** The first address is IPv4 exactly if any arrived, and link-local only if nothing else did. */
  lemma FirstByFamily(arrivals: seq<IpAddr>)
    requires arrivals != []
    ensures var list := ByFamily(FirstOccurrences(arrivals));
            && list != []
            && (list[0].V4? <==> exists ip :: ip in arrivals && ip.V4?)
            && (IfLinkLocalV6(list[0]) != [] <==> forall ip :: ip in arrivals ==> IfLinkLocalV6(ip) != [])
  {
    hide FirstOccurrences, Collect;
    var firsts := FirstOccurrences(arrivals);
    var a, b, c := Collect(IfV4, firsts), Collect(IfGlobalV6, firsts), Collect(IfLinkLocalV6, firsts);
    FirstOccurrencesElements(arrivals);
    forall ip: IpAddr
      ensures (ip in a <==> ip in arrivals && ip.V4?) && (ip in b <==> ip in arrivals && IfGlobalV6(ip) == [ip])
              && (ip in c <==> ip in arrivals && IfLinkLocalV6(ip) == [ip])
    {
      FamilyMembers(firsts, ip);
    }
    assert arrivals[0] in arrivals;
    var first := ByFamily(firsts)[0];
    assert first in (if a != [] then a else if b != [] then b else c);
    forall ip | ip in arrivals ensures ip in a || ip in b || ip in c {
    }
  }

  lemma PreferredNonempty(arrivals: seq<IpAddr>)
    ensures Preferred(arrivals) == [] <==> arrivals == []
  {
    AddrOrder();
    StableSortSorts(AddrLeq, FirstOccurrences(arrivals));
    FirstOccurrencesElements(arrivals);
    assert |multiset(Preferred(arrivals))| == |Preferred(arrivals)|;
    assert |multiset(FirstOccurrences(arrivals))| == |FirstOccurrences(arrivals)|;
    if arrivals != [] {
      assert arrivals[0] in FirstOccurrences(arrivals);
    }
  }

  ghost predicate HoldsServices(k: Known, facts: seq<Fact>) {
    && (forall name: Text :: name in k.srvs <==> LastService(facts, name).Some?)
    && (forall name: Text :: name in k.srvs ==> LastService(facts, name) == Some(k.srvs[name]))
  }

  ghost predicate HoldsAddresses(k: Known, facts: seq<Fact>) {
    && (forall host: Text :: host in k.addrs <==> Arrivals(facts, host) != [])
    && (forall host: Text :: host in k.addrs ==> k.addrs[host] == Preferred(Arrivals(facts, host)))
  }

  ghost predicate Holds(k: Known, facts: seq<Fact>) {
    k.ptrs == Pointers(facts) && HoldsServices(k, facts) && HoldsAddresses(k, facts)
  }

  /** The tables kept record by record hold, at every moment, all matching PTRs in order, the last
      SRV of each name, and for each host the preference order of its distinct addresses. */
  lemma {:induction false} TablesHold(facts: seq<Fact>)
    ensures Holds(LearnAll(NOTHING_KNOWN, facts), facts)
  {
    hide Preferred, Keep;
    if facts != [] {
      var n := |facts| - 1;
      TablesHold(facts[..n]);
      LearnHolds(LearnAll(NOTHING_KNOWN, facts[..n]), facts[..n], facts[n]);
      assert facts == facts[..n] + [facts[n]];
    }
  }

  lemma LearnHolds(k: Known, facts: seq<Fact>, fact: Fact)
    requires Holds(k, facts)
    ensures Holds(Learn(k, fact), facts + [fact])
  {
    hide HoldsServices, HoldsAddresses;
    assert (facts + [fact])[..|facts|] == facts;
    LearnHoldsServices(k, facts, fact);
    LearnHoldsAddresses(k, facts, fact);
  }

  lemma LearnHoldsServices(k: Known, facts: seq<Fact>, fact: Fact)
    requires HoldsServices(k, facts)
    ensures HoldsServices(Learn(k, fact), facts + [fact])
  {
    hide Keep;
    assert (facts + [fact])[..|facts|] == facts;
  }

  lemma LearnHoldsAddresses(k: Known, facts: seq<Fact>, fact: Fact)
    requires HoldsAddresses(k, facts)
    ensures HoldsAddresses(Learn(k, fact), facts + [fact])
  {
    hide Preferred, Keep, Arrivals;
    forall host: Text
      ensures Arrivals(facts + [fact], host)
           == if fact.Address? && fact.host == host then Arrivals(facts, host) + [fact.ip] else Arrivals(facts, host)
    {
      OneMoreArrival(facts, fact, host);
    }
    if fact.Address? {
      NothingPreferred();
      KeepIsPreferred(Arrivals(facts, fact.host), fact.ip);
    }
  }

  lemma OneMoreArrival(facts: seq<Fact>, fact: Fact, host: Text)
    ensures Arrivals(facts + [fact], host)
         == if fact.Address? && fact.host == host then Arrivals(facts, host) + [fact.ip] else Arrivals(facts, host)
  {
    assert (facts + [fact])[..|facts|] == facts;
  }

  lemma NothingPreferred()
    ensures Preferred([]) == []
  {
  }

  /** The first address kept for a host is of the best class that was advertised for it. */
  lemma BestAddressFirst(facts: seq<Fact>, host: Text, ip: IpAddr)
    requires ip in Arrivals(facts, host)
    ensures var k := LearnAll(NOTHING_KNOWN, facts);
            host in k.addrs && k.addrs[host] != [] && AddrLeq(k.addrs[host][0], ip)
  {
    hide AddrPriority;
    TablesHold(facts);
    var arrivals := Arrivals(facts, host);
    var list := Preferred(arrivals);
    AddrOrder();
    StableSortSorts(AddrLeq, FirstOccurrences(arrivals));
    FirstOccurrencesElements(arrivals);
    assert ip in multiset(list);
    var j :| 0 <= j < |list| && list[j] == ip;
    assert AddrLeq(list[0], list[j]);
  }

  // ---- The join ----

  predicate Resolved(k: Known, key: (ServiceKind, Text)) {
    key.1 in k.srvs && AddressesOf(k, k.srvs[key.1].target) != []
  }

  function ServiceFor(k: Known): ((ServiceKind, Text)) -> seq<AdbService> {
    (key: (ServiceKind, Text)) =>
      if Resolved(k, key)
      then var ips := AddressesOf(k, k.srvs[key.1].target);
           [AdbService(key.0, key.1, ips[0], ips, k.srvs[key.1].port)]
      else []
  }

  /** The services of a list of PTR keys, in order. */
  function Join(k: Known, keys: seq<(ServiceKind, Text)>): seq<AdbService> {
    Collect<(ServiceKind, Text), AdbService>(ServiceFor(k), keys)
  }

  /** One service for each distinct PTR that resolves, in order of first appearance. */
  function Services(k: Known): seq<AdbService> {
    Join(k, FirstOccurrences<(ServiceKind, Text)>(k.ptrs))
  }

  function KeyOf(s: AdbService): (ServiceKind, Text) {
    (s.kind, s.instance)
  }

  predicate Describes(k: Known, s: AdbService) {
    && KeyOf(s) in k.ptrs
    && s.instance in k.srvs && s.port == k.srvs[s.instance].port
    && s.ips == AddressesOf(k, k.srvs[s.instance].target) && s.ips != [] && s.ip == s.ips[0]
  }

  /** The join is sound and complete, and reports the services in the order in which their PTRs
      first arrived, so none twice. */
  lemma JoinIsExact(k: Known)
    ensures forall s: AdbService :: s in Services(k) <==> Describes(k, s)
    ensures var r := Services(k);
            forall i, j :: 0 <= i < j < |r| ==> Before(k.ptrs, KeyOf(r[i]), KeyOf(r[j])) && KeyOf(r[i]) != KeyOf(r[j])
  {
    hide Describes, FirstOccurrences, Join;
    forall s: AdbService ensures s in Services(k) <==> Describes(k, s) {
      if s in Services(k) {
        JoinIsSound(k, s);
      }
      if Describes(k, s) {
        JoinIsComplete(k, s);
      }
    }
    JoinOrder(k);
  }

  lemma JoinOrder(k: Known)
    ensures var r := Services(k);
            forall i, j :: 0 <= i < j < |r| ==> Before(k.ptrs, KeyOf(r[i]), KeyOf(r[j])) && KeyOf(r[i]) != KeyOf(r[j])
  {
    hide Join;
    var keys := FirstOccurrences<(ServiceKind, Text)>(k.ptrs);
    FirstOccurrencesInOrder<(ServiceKind, Text)>(k.ptrs);
    JoinInOrder(k, keys, k.ptrs);
  }

  lemma JoinIsSound(k: Known, s: AdbService)
    requires s in Services(k)
    ensures Describes(k, s)
  {
    FirstOccurrencesElements(k.ptrs);
    var _ := CollectSource<(ServiceKind, Text), AdbService>(ServiceFor(k), FirstOccurrences(k.ptrs), s);
  }

  lemma JoinIsComplete(k: Known, s: AdbService)
    requires Describes(k, s)
    ensures s in Services(k)
  {
    hide FirstOccurrences;
    FirstOccurrencesElements(k.ptrs);
    var keys := FirstOccurrences(k.ptrs);
    assert KeyOf(s) in keys;
    var i :| 0 <= i < |keys| && keys[i] == KeyOf(s);
    assert ServiceFor(k)(keys[i]) == [s];
    CollectReaches<(ServiceKind, Text), AdbService>(ServiceFor(k), keys, i, s);
  }

  lemma {:induction false} JoinInOrder(k: Known, keys: seq<(ServiceKind, Text)>, ptrs: seq<(ServiceKind, Text)>)
    requires InOrder(ptrs, keys)
    ensures var r := Join(k, keys);
            && (forall i :: 0 <= i < |r| ==> KeyOf(r[i]) in keys)
            && (forall i, j :: 0 <= i < j < |r| ==> Before(ptrs, KeyOf(r[i]), KeyOf(r[j])))
  {
    hide Before;
    if keys != [] {
      var n := |keys| - 1;
      JoinInOrder(k, keys[..n], ptrs);
      assert forall key :: key in keys[..n] ==> key in keys && Before(ptrs, key, keys[n]);
      assert Join(k, keys) == Join(k, keys[..n]) + ServiceFor(k)(keys[n]);
    }
  }

  /** Told from the facts alone: a PTR for the service, the last SRV of its instance, and the
      distinct addresses of that SRV's target, by family and then by arrival. */
  predicate Advertised(facts: seq<Fact>, s: AdbService) {
    && Pointer(s.kind, s.instance) in facts
    && match LastService(facts, s.instance)
       case None => false
       case Some(srv) =>
         && s.port == srv.port && s.ips == ByFamily(FirstOccurrences<IpAddr>(Arrivals(facts, srv.target)))
         && s.ips != [] && s.ip == s.ips[0]
  }

  /** A service is reported exactly if the facts advertise it. */
  lemma ReportedIffAdvertised(facts: seq<Fact>, s: AdbService)
    ensures s in Services(LearnAll(NOTHING_KNOWN, facts)) <==> Advertised(facts, s)
  {
    hide Services, LearnAll, Preferred, LastService, Arrivals, Pointers, ByFamily, FirstOccurrences;
    var k := LearnAll(NOTHING_KNOWN, facts);
    TablesHold(facts);
    JoinIsExact(k);
    NothingPreferred();
    forall host: Text
      ensures AddressesOf(k, host) == ByFamily(FirstOccurrences<IpAddr>(Arrivals(facts, host)))
    {
      PreferredByFamily(Arrivals(facts, host));
    }
    PointersIn(facts, s.kind, s.instance);
    assert s in Services(k) <==> Describes(k, s);
  }

  lemma PointersIn(facts: seq<Fact>, kind: ServiceKind, instance: Text)
    ensures (kind, instance) in Pointers(facts) <==> Pointer(kind, instance) in facts
  {
    if (kind, instance) in Pointers(facts) {
      var i := CollectSource<Fact, (ServiceKind, Text)>(PointerIn, facts, (kind, instance));
      assert facts[i] == Pointer(kind, instance);
    }
    if Pointer(kind, instance) in facts {
      var i :| 0 <= i < |facts| && facts[i] == Pointer(kind, instance);
      CollectReaches<Fact, (ServiceKind, Text)>(PointerIn, facts, i, (kind, instance));
    }
  }

  /** The SRV that counts is the last one of the name. */
  lemma {:induction false} LastServiceIsLast(facts: seq<Fact>, name: Text, srv: Srv)
    ensures LastService(facts, name) == Some(srv) <==>
              exists i :: 0 <= i < |facts| && facts[i] == Service(name, srv.target, srv.port)
                          && forall j :: i < j < |facts| ==> !(facts[j].Service? && facts[j].name == name)
  {
    if facts != [] {
      var n := |facts| - 1;
      var front := facts[..n];
      LastServiceIsLast(front, name, srv);
      if facts[n].Service? && facts[n].name == name {
        assert LastService(facts, name) == Some(srv) ==> facts[n] == Service(name, srv.target, srv.port);
      } else {
        assert forall i :: 0 <= i < n ==> front[i] == facts[i];
        if i :| 0 <= i < n && front[i] == Service(name, srv.target, srv.port)
                && forall j :: i < j < n ==> !(front[j].Service? && front[j].name == name) {
          assert facts[i] == Service(name, srv.target, srv.port);
        }
      }
    }
  }

  lemma ArrivalsAre(facts: seq<Fact>, host: Text, ip: IpAddr)
    ensures ip in Arrivals(facts, host) <==> Address(host, ip) in facts
  {
    if ip in Arrivals(facts, host) {
      var i := CollectSource<Fact, IpAddr>(ArrivalAt(host), facts, ip);
      assert facts[i] == Address(host, ip);
    }
    if Address(host, ip) in facts {
      var i :| 0 <= i < |facts| && facts[i] == Address(host, ip);
      CollectReaches<Fact, IpAddr>(ArrivalAt(host), facts, i, ip);
    }
  }

  /** The address offered for a connection: IPv4 exactly if the SRV's target advertised any, and
      link-local only if it advertised nothing else. */
  lemma OfferedAddress(facts: seq<Fact>, s: AdbService)
    requires Advertised(facts, s)
    ensures var host := LastService(facts, s.instance).value.target;
            && Address(host, s.ip) in facts
            && (s.ip.V4? <==> exists ip :: Address(host, ip) in facts && ip.V4?)
            && (IfLinkLocalV6(s.ip) != [] <==> forall ip :: Address(host, ip) in facts ==> IfLinkLocalV6(ip) != [])
  {
    hide LastService, Arrivals, ByFamily, FirstOccurrences;
    var host := LastService(facts, s.instance).value.target;
    var arrivals := Arrivals(facts, host);
    forall ip: IpAddr ensures ip in arrivals <==> Address(host, ip) in facts {
      ArrivalsAre(facts, host, ip);
    }
    PreferredByFamily(arrivals);
    PreferredNonempty(arrivals);
    PreferredElements(arrivals, s.ip);
    FirstByFamily(arrivals);
  }

  /** No two reported services differ in their instance and agree in kind, port and address. */
  ghost predicate EndpointsApart(services: seq<AdbService>) {
    forall s, t :: s in services && t in services && s.instance != t.instance ==>
      (s.kind, s.port, s.ip) != (t.kind, t.port, t.ip)
  }

  /** The facts advertise two instances at one endpoint: both have a PTR of this kind, their last SRVs
      name the same port, and the preferred addresses of the two SRV targets begin alike. */
  predicate SharesEndpoint(facts: seq<Fact>, kind: ServiceKind, a: Text, b: Text) {
    && a != b && Pointer(kind, a) in facts && Pointer(kind, b) in facts
    && match (LastService(facts, a), LastService(facts, b))
       case (Some(x), Some(y)) =>
         var xs, ys := Preferred(Arrivals(facts, x.target)), Preferred(Arrivals(facts, y.target));
         x.port == y.port && xs != [] && ys != [] && xs[0] == ys[0]
       case _ => false
  }

  /** The join does not merge instances: services at one endpoint are reported exactly if the facts
      advertise two instances there, whether or not through the same SRV target. */
  lemma SharedEndpointsAreNotMerged(facts: seq<Fact>)
    ensures EndpointsApart(Services(LearnAll(NOTHING_KNOWN, facts)))
        <==> forall kind, a, b :: !SharesEndpoint(facts, kind, a, b)
  {
    hide Services, LearnAll, Preferred, LastService, Arrivals, Advertised, SharesEndpoint;
    var services := Services(LearnAll(NOTHING_KNOWN, facts));
    forall s: AdbService ensures s in services <==> Advertised(facts, s) {
      ReportedIffAdvertised(facts, s);
    }
    if !EndpointsApart(services) {
      var s, t :|
        s in services && t in services && s.instance != t.instance && s.kind == t.kind && s.port == t.port && s.ip == t.ip;
      ReportedTwice(facts, s, t);
    }
    forall kind, a, b | SharesEndpoint(facts, kind, a, b) ensures !EndpointsApart(services) {
      var s, t := SharedServices(facts, kind, a, b);
      assert s in services && t in services;
    }
  }

  lemma ReportedTwice(facts: seq<Fact>, s: AdbService, t: AdbService)
    requires Advertised(facts, s) && Advertised(facts, t) && s.instance != t.instance
    requires s.kind == t.kind && s.port == t.port && s.ip == t.ip
    ensures SharesEndpoint(facts, s.kind, s.instance, t.instance)
  {
    hide Preferred, LastService, Arrivals, ByFamily, FirstOccurrences;
    var x, y := LastService(facts, s.instance).value, LastService(facts, t.instance).value;
    PreferredByFamily(Arrivals(facts, x.target));
    PreferredByFamily(Arrivals(facts, y.target));
  }

  /** The two services at a shared endpoint. */
  lemma SharedServices(facts: seq<Fact>, kind: ServiceKind, a: Text, b: Text) returns (s: AdbService, t: AdbService)
    requires SharesEndpoint(facts, kind, a, b)
    ensures Advertised(facts, s) && Advertised(facts, t) && s.instance == a != b == t.instance
    ensures s.kind == t.kind == kind && s.port == t.port && s.ip == t.ip
  {
    hide Preferred, LastService, Arrivals, ByFamily, FirstOccurrences;
    var x, y := LastService(facts, a).value, LastService(facts, b).value;
    PreferredByFamily(Arrivals(facts, x.target));
    PreferredByFamily(Arrivals(facts, y.target));
    var xs, ys := Preferred(Arrivals(facts, x.target)), Preferred(Arrivals(facts, y.target));
    s, t := AdbService(kind, a, xs[0], xs, x.port), AdbService(kind, b, ys[0], ys, y.port);
  }

  // ---- Replays ----

  lemma {:induction false} LastServiceConcat(a: seq<Fact>, b: seq<Fact>, name: Text)
    ensures LastService(a + b, name) == if LastService(b, name).Some? then LastService(b, name) else LastService(a, name)
    decreases |b|
  {
    if b == [] {
      assert a + b == a;
    } else {
      var n := |b| - 1;
      LastServiceConcat(a, b[..n], name);
      assert (a + b)[..|a + b| - 1] == a + b[..n];
    }
  }

  /** Collecting first occurrences, a stretch repeated at once leaves no trace. */
  lemma RepeatLeavesNoTrace<U>(f: Fact -> seq<U>, before: seq<Fact>, again: seq<Fact>, after: seq<Fact>)
    ensures FirstOccurrences(Collect(f, before + again + again + after))
         == FirstOccurrences(Collect(f, before + again + after))
    ensures Collect(f, before + again + again + after) == [] <==> Collect(f, before + again + after) == []
  {
    CollectConcat(f, before + again + again, after);
    CollectConcat(f, before + again, again);
    CollectConcat(f, before, again);
    CollectConcat(f, before + again, after);
    var b, r, a := Collect(f, before), Collect(f, again), Collect(f, after);
    FirstOccurrencesAbsorb(b + r, r);
    FirstOccurrencesCongruence(b + r + r, b + r, a);
  }

  /** Receiving a stretch of records twice in a row, anywhere, or everything twice over, does not
      change the reported services. */
  lemma ReplayIsInvisible(before: seq<Fact>, again: seq<Fact>, after: seq<Fact>)
    ensures Services(LearnAll(NOTHING_KNOWN, before + again + again + after))
         == Services(LearnAll(NOTHING_KNOWN, before + again + after))
  {
    hide FirstOccurrences, Preferred, Services, LearnAll;
    var once, twice := before + again + after, before + again + again + after;
    var k, l := LearnAll(NOTHING_KNOWN, once), LearnAll(NOTHING_KNOWN, twice);
    TablesHold(once);
    TablesHold(twice);
    RepeatLeavesNoTrace(PointerIn, before, again, after);
    forall name: Text ensures LastService(once, name) == LastService(twice, name) {
      LastServiceConcat(before + again, after, name);
      LastServiceConcat(before + again + again, after, name);
      LastServiceConcat(before + again, again, name);
      LastServiceConcat(before, again, name);
    }
    forall host: Text
      ensures Preferred(Arrivals(once, host)) == Preferred(Arrivals(twice, host))
      ensures Arrivals(once, host) == [] <==> Arrivals(twice, host) == []
    {
      RepeatLeavesNoTrace(ArrivalAt(host), before, again, after);
      PreferredByFirsts(Arrivals(once, host), Arrivals(twice, host));
    }
    SameTables(k, l, once, twice);
    ServicesByFirsts(k, l);
  }

  lemma PreferredByFirsts(a: seq<IpAddr>, b: seq<IpAddr>)
    requires FirstOccurrences(a) == FirstOccurrences(b)
    ensures Preferred(a) == Preferred(b)
  {
  }

  lemma ServicesByFirsts(k: Known, l: Known)
    requires k.srvs == l.srvs && k.addrs == l.addrs && FirstOccurrences(k.ptrs) == FirstOccurrences(l.ptrs)
    ensures Services(k) == Services(l)
  {
    assert forall key :: ServiceFor(k)(key) == ServiceFor(l)(key);
    CollectSame(ServiceFor(k), ServiceFor(l), FirstOccurrences(k.ptrs));
  }

  lemma {:induction false} CollectSame<T(!new), U>(f: T -> seq<U>, g: T -> seq<U>, s: seq<T>)
    requires forall x :: f(x) == g(x)
    ensures Collect(f, s) == Collect(g, s)
  {
    if s != [] {
      CollectSame(f, g, s[..|s| - 1]);
    }
  }

  lemma SameTables(k: Known, l: Known, once: seq<Fact>, twice: seq<Fact>)
    requires Holds(k, once) && Holds(l, twice)
    requires forall name: Text :: LastService(once, name) == LastService(twice, name)
    requires forall host: Text :: Preferred(Arrivals(once, host)) == Preferred(Arrivals(twice, host))
    requires forall host: Text :: Arrivals(once, host) == [] <==> Arrivals(twice, host) == []
    ensures k.srvs == l.srvs && k.addrs == l.addrs
  {
    hide Preferred, LastService, Arrivals;
    assert forall name: Text :: name in k.srvs <==> name in l.srvs;
    assert forall host: Text :: host in k.addrs <==> host in l.addrs;
  }
}

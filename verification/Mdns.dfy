/** The discovery client as it is written: the query it sends, the record loop that fills its
    tables in place, and the join at the end. The received datagrams are given. */
module Mdns {
  import opened Net
  import opened Sequences
  import opened DnsName
  import opened DnsCursor
  import opened DnsMessage
  import opened Discovery
  import opened DnsQuery
  import opened Utf8

  class Tables {
    var srvs: map<Text, Srv>
    var addrs: map<Text, seq<IpAddr>>
    var ptrs: seq<(ServiceKind, Text)>

    constructor ()
      ensures View() == NOTHING_KNOWN
    {
      srvs, addrs, ptrs := map[], map[], [];
    }

    ghost function View(): Known
      reads this
    {
      Known(srvs, addrs, ptrs)
    }

    /** Add an address unless it is known, and restore the preference order. */
    method PushAddr(name: Text, ip: IpAddr)
      modifies this`addrs
      ensures View() == Learn(old(View()), Address(name, ip))
    {
      hide StableSort, AddrLeq;
      if name !in addrs {
        addrs := addrs[name := []];
      }
      if ip !in addrs[name] {
        addrs := addrs[name := StableSort(AddrLeq, addrs[name] + [ip])];
      }
    }

    /** Remember a PTR target if the record's name is one of the service types. */
    method PushPtr(name: Text, target: Text)
      modifies this`ptrs
      ensures View() == if ServiceOf(name).Some? then Learn(old(View()), Pointer(ServiceOf(name).value, target))
                        else old(View())
    {
      hide EqIgnoreCase;
      assert ADB_SERVICES[0..] == ADB_SERVICES;
      for i := 0 to |ADB_SERVICES|
        invariant ptrs == old(ptrs)
        invariant ServiceOf(name) == FirstService(name, ADB_SERVICES[i..])
      {
        if EqIgnoreCase(name, ADB_SERVICES[i].0) {
          ptrs := ptrs + [(ADB_SERVICES[i].1, target)];
          return;
        }
      }
    }

    /** Take in the data of one record, which occupies `len` bytes at `d`. */
    method TakeData(buf: seq<Byte>, name: Text, rtype: U16, d: nat, len: nat)
      requires d + len <= |buf|
      modifies this
      ensures View() == Learn(old(View()), FactOf(buf, name, rtype, d, len))
    {
      hide NameAt, EndOfName, ServiceOf, Keep;
      if rtype == 12 {
        var sub := new Cursor(buf, d);
        var target := sub.ReadName();
        if target.Some? {
          PushPtr(name, target.value);
        }
      } else if rtype == 33 {
        if len >= 6 {
          var port := U16At(buf, d + 4);
          var sub := new Cursor(buf, d + 6);
          var target := sub.ReadName();
          if target.Some? {
            srvs := srvs[name := Srv(target.value, port)];
          }
        }
      } else if rtype == 1 && len == 4 {
        PushAddr(name, V4(U32At(buf, d)));
      } else if rtype == 28 && len == 16 {
        PushAddr(name, V6(buf[d..d + 16]));
      }
    }

    /** Read the next record; nothing is learnt from a record that cannot be read. */
    method TakeRecord(c: Cursor) returns (ok: bool)
      modifies this, c
      ensures match RecordAt(c.buf, old(c.pos))
              case None => !ok && View() == old(View())
              case Some((fact, q)) => ok && c.pos == q && View() == Learn(old(View()), fact)
    {
      hide NameAt, EndOfName, FactOf, Learn;
      var name := c.ReadName();
      if name.None? {
        return false;
      }
      var rtype := c.ReadU16();
      if rtype.None? {
        return false;
      }
      ok := c.Skip(2);
      if !ok {
        return;
      }
      ok := c.Skip(4);
      if !ok {
        return;
      }
      var len := c.ReadU16();
      if len.None? {
        return false;
      }
      var d := c.pos;
      if d + len.value > |c.buf| {
        return false;
      }
      TakeData(c.buf, name.value, rtype.value, d, len.value);
      c.pos := d + len.value;
      ok := true;
    }

    method SkipQuestions(c: Cursor, n: nat) returns (ok: bool)
      modifies c
      ensures match Questions(c.buf, old(c.pos), n)
              case None => !ok
              case Some(p) => ok && c.pos == p
    {
      hide NameAt, EndOfName;
      for i := 0 to n
        invariant Questions(c.buf, old(c.pos), n) == Questions(c.buf, c.pos, n - i)
      {
        var name := c.ReadName();
        if name.None? {
          return false;
        }
        ok := c.Skip(4);
        if !ok {
          return;
        }
      }
      ok := true;
    }

    /** Read up to `n` records, keeping what was learnt before a failure. */
    method TakeRecords(c: Cursor, n: nat) returns (ok: bool)
      modifies this, c
      ensures View() == LearnAll(old(View()), Records(c.buf, old(c.pos), n).facts)
      ensures ok == Records(c.buf, old(c.pos), n).complete
    {
      hide RecordAt, Learn, LearnAll, Tables.View;
      ghost var facts: seq<Fact> := [];
      NothingLearnt(View());
      ghost var whole := Records(c.buf, c.pos, n);
      assert whole.facts == [] + whole.facts;
      for i := 0 to n
        invariant View() == LearnAll(old(View()), facts)
        invariant whole.facts == facts + Records(c.buf, c.pos, n - i).facts
        invariant whole.complete == Records(c.buf, c.pos, n - i).complete
      {
        ghost var p := c.pos;
        ok := TakeRecord(c);
        if !ok {
          assert facts + [] == facts;
          return;
        }
        ghost var fact := RecordAt(c.buf, p).value.0;
        LearnOne(old(View()), facts, fact);
        assert facts + ([fact] + Records(c.buf, c.pos, n - i - 1).facts)
            == facts + [fact] + Records(c.buf, c.pos, n - i - 1).facts;
        facts := facts + [fact];
      }
      assert facts + [] == facts;
      ok := true;
    }

    /** Take in one datagram. On failure the tables hold exactly the completed records. */
    method ParseMessage(buf: seq<Byte>) returns (ok: bool)
      modifies this
      ensures View() == LearnAll(old(View()), Message(buf).facts)
      ensures ok == Message(buf).complete
    {
      hide Questions, Records, Learn;
      if |buf| < 12 {
        return false;
      }
      var c := new Cursor(buf, 0);
      var _ := c.Skip(2);
      var _ := c.Skip(2);
      var qd := c.ReadU16();
      var an := c.ReadU16();
      var ns := c.ReadU16();
      var ar := c.ReadU16();
      ok := SkipQuestions(c, qd.value);
      if ok {
        ok := TakeRecords(c, an.value + ns.value + ar.value);
      }
    }

    /** Drop repeated PTRs, keeping each at its first occurrence. */
    method RetainFirstPtrs()
      modifies this`ptrs
      ensures ptrs == FirstOccurrences(old(ptrs))
    {
      var seen: set<(ServiceKind, Text)> := {};
      var kept: seq<(ServiceKind, Text)> := [];
      for i := 0 to |ptrs|
        invariant ptrs == old(ptrs)
        invariant kept == FirstOccurrences(ptrs[..i])
        invariant forall key :: key in seen <==> key in ptrs[..i]
      {
        assert ptrs[..i + 1][..i] == ptrs[..i];
        if ptrs[i] !in seen {
          seen := seen + {ptrs[i]};
          kept := kept + [ptrs[i]];
        }
      }
      assert ptrs[..|ptrs|] == ptrs;
      ptrs := kept;
    }

    /** Join the tables into services. The second duplicate check never rejects anything. */
    method Report() returns (out: seq<AdbService>, rejected: nat)
      modifies this`ptrs
      ensures out == Services(old(View()))
      ensures rejected == 0
    {
      hide FirstOccurrences;
      RetainFirstPtrs();
      FirstOccurrencesElements(old(ptrs));
      ghost var k := old(View());
      assert forall key: (ServiceKind, Text) :: ServiceFor(View())(key) == ServiceFor(k)(key);
      var seen: set<(ServiceKind, Text, U16, IpAddr)> := {};
      out, rejected := [], 0;
      for i := 0 to |ptrs|
        invariant out == Join(k, ptrs[..i]) && rejected == 0
        invariant forall s :: s in seen ==> (s.0, s.1) in ptrs[..i]
      {
        var (kind, instance) := ptrs[i];
        assert ptrs[..i + 1][..i] == ptrs[..i];
        assert Join(k, ptrs[..i + 1]) == Join(k, ptrs[..i]) + ServiceFor(k)(ptrs[i]);
        if instance in srvs && srvs[instance].target in addrs {
          var srv := srvs[instance];
          var ips := addrs[srv.target];
          if ips != [] {
            var inserted := (kind, instance, srv.port, ips[0]) !in seen;
            seen := seen + {(kind, instance, srv.port, ips[0])};
            if inserted {
              out := out + [AdbService(kind, instance, ips[0], ips, srv.port)];
            }
            rejected := rejected + if inserted then 0 else 1;
          }
        }
      }
      assert ptrs[..|ptrs|] == ptrs;
    }
  }

  function FactsIn(datagram: seq<Byte>): seq<Fact> {
    Message(datagram).facts
  }

  /** Everything that a sequence of datagrams contributes, in order. */
  function FactsOf(datagrams: seq<seq<Byte>>): seq<Fact> {
    Collect(FactsIn, datagrams)
  }

  /** The services reported after these datagrams. */
  function Discovered(datagrams: seq<seq<Byte>>): seq<AdbService> {
    Services(LearnAll(NOTHING_KNOWN, FactsOf(datagrams)))
  }

  method Discover(datagrams: seq<seq<Byte>>) returns (out: seq<AdbService>)
    ensures out == Discovered(datagrams)
  {
    hide FactsIn, LearnAll, Services;
    var tables := new Tables();
    assert tables.View() == LearnAll(NOTHING_KNOWN, FactsOf(datagrams[..0])) by { NothingLearnt(NOTHING_KNOWN); }
    for i := 0 to |datagrams|
      invariant fresh(tables)
      invariant tables.View() == LearnAll(NOTHING_KNOWN, FactsOf(datagrams[..i]))
    {
      var _ := tables.ParseMessage(datagrams[i]);
      assert datagrams[..i + 1][..i] == datagrams[..i];
      FactsInDatagram(datagrams[i]);
      LearnTwice(NOTHING_KNOWN, FactsOf(datagrams[..i]), FactsIn(datagrams[i]));
    }
    assert datagrams[..|datagrams|] == datagrams;
    var rejected;
    out, rejected := tables.Report();
  }

  lemma NothingLearnt(k: Known)
    ensures LearnAll(k, []) == k
  {
  }

  lemma LearnOne(k: Known, facts: seq<Fact>, fact: Fact)
    ensures LearnAll(k, facts + [fact]) == Learn(LearnAll(k, facts), fact)
  {
    assert (facts + [fact])[..|facts|] == facts;
  }

  lemma FactsInDatagram(datagram: seq<Byte>)
    ensures FactsIn(datagram) == Message(datagram).facts
  {
  }

  /** Over arbitrary datagrams, readable or not: a service is reported exactly if the records that
      could be read advertise it. */
  lemma DiscoveryIsExact(datagrams: seq<seq<Byte>>, s: AdbService)
    ensures s in Discovered(datagrams) <==> Advertised(FactsOf(datagrams), s)
  {
    hide Services, LearnAll, Advertised, FactsOf;
    ReportedIffAdvertised(FactsOf(datagrams), s);
  }

  function ItemsOf(facts: seq<Fact>): seq<Fact> {
    facts
  }

  /** What well-formed messages say is what is learnt from them, whatever their compression. */
  lemma {:induction false} MessagesAreUnderstood(
    messages: seq<WireMessage>, datagrams: seq<seq<Byte>>, said: seq<seq<Fact>>)
    requires |datagrams| == |said| == |messages|
    requires forall i :: 0 <= i < |messages| ==> Says(messages[i], said[i]) && datagrams[i] == messages[i].Encode()
    ensures FactsOf(datagrams) == Collect(ItemsOf, said)
  {
    hide Says, WireMessage.Encode, WireMessage.Ok, Message;
    if messages != [] {
      var n := |messages| - 1;
      MessageRoundTrip(messages[n], said[n]);
      MessagesAreUnderstood(messages[..n], datagrams[..n], said[..n]);
    }
  }

  /** Receiving a run of datagrams twice in a row, wherever it occurs (one datagram, or all of
      them), leaves the reported services unchanged. */
  lemma ReceivingAgainChangesNothing(before: seq<seq<Byte>>, again: seq<seq<Byte>>, after: seq<seq<Byte>>)
    ensures Discovered(before + again + again + after) == Discovered(before + again + after)
  {
    hide FactsIn, LearnAll, Services;
    CollectConcat(FactsIn, before + again + again, after);
    CollectConcat(FactsIn, before + again, again);
    CollectConcat(FactsIn, before, again);
    CollectConcat(FactsIn, before + again, after);
    ReplayIsInvisible(FactsOf(before), FactsOf(again), FactsOf(after));
  }

  // ---- Two instances at one endpoint ----

  /** The name of one label of one ASCII letter. */
  function Letter(b: Byte): WireName {
    WireName([[b]], None)
  }

  function LegacyType(): WireName {
    WireName([Ascii(FirstLabel(2)), Ascii("_tcp"), Ascii("local")], None)
  }

  function Record(name: WireName, data: WireData): WireRecord {
    WireRecord(name, 1, 120, data)
  }

  const SHARED_IP: U32 := 0x0A00_0005

  /** Instances a and b, through the SRV targets c and d, at 10.0.0.5:5555. */
  const TWIN_RECORDS: seq<WireRecord> := [
    Record(LegacyType(), PtrData(Letter(0x61))),
    Record(LegacyType(), PtrData(Letter(0x62))),
    Record(Letter(0x61), SrvData(0, 0, 5555, Letter(0x63))),
    Record(Letter(0x62), SrvData(0, 0, 5555, Letter(0x64))),
    Record(Letter(0x63), AData(SHARED_IP)),
    Record(Letter(0x64), AData(SHARED_IP))]

  const TWIN_FACTS: seq<Fact> := [
    Pointer(Legacy, [0x61]),
    Pointer(Legacy, [0x62]),
    Service([0x61], [0x63], 5555),
    Service([0x62], [0x64], 5555),
    Address([0x63], V4(SHARED_IP)),
    Address([0x64], V4(SHARED_IP))]

  const TWIN_ADVERT: WireMessage := WireMessage(0, 0x8400, [], TWIN_RECORDS, [], [])

  lemma LetterDenotes(buf: seq<Byte>, b: Byte)
    requires b < 0x80
    ensures Denotes(buf, Letter(b), [b]) && |Letter(b).Encode()| == 3
  {
    AsciiIsValid([b]);
    assert [[b]][1..] == [];
    assert EncodeLabels([[b]]) == [1, b];
  }

  lemma LegacyTypeDenotes(buf: seq<Byte>)
    ensures Denotes(buf, LegacyType(), ADB_SERVICES[2].0) && ServiceOf(ADB_SERVICES[2].0) == Some(Legacy)
  {
    hide Split, Ascii, FirstLabel, ThreeLabels, ServiceOf, EqIgnoreCase, GoodLabel;
    var a, b, c := Ascii(FirstLabel(2)), Ascii("_tcp"), Ascii("local");
    PlainPieces(2);
    ServiceTypeLabels(2);
    ServiceTypesAreRecognised(2);
    ThreeLabelsSplit(a, b, c);
    SplitThenJoin(ThreeLabels(a, b, c));
    PlainPiecesAreGood(a);
    PlainPiecesAreGood(b);
    PlainPiecesAreGood(c);
  }

  lemma PlainPiecesAreGood(p: Text)
    requires PlainPiece(p)
    ensures GoodLabel(p)
  {
    AsciiIsValid(p);
  }

  lemma PtrMeans(buf: seq<Byte>, b: Byte)
    requires b < 0x80
    ensures Means(buf, Record(LegacyType(), PtrData(Letter(b))), Pointer(Legacy, [b]))
  {
    hide Denotes, ServiceOf, LegacyType;
    LegacyTypeDenotes(buf);
    LetterDenotes(buf, b);
    DenotingIsOk(buf, LegacyType(), ADB_SERVICES[2].0);
    DenotingIsOk(buf, Letter(b), [b]);
    assert FactFor(PtrData(Letter(b)), ADB_SERVICES[2].0, [b]) == Pointer(Legacy, [b]);
  }

  lemma SrvMeans(buf: seq<Byte>, b: Byte, c: Byte)
    requires b < 0x80 && c < 0x80
    ensures Means(buf, Record(Letter(b), SrvData(0, 0, 5555, Letter(c))), Service([b], [c], 5555))
  {
    hide Denotes, ServiceOf;
    LetterDenotes(buf, b);
    LetterDenotes(buf, c);
    DenotingIsOk(buf, Letter(b), [b]);
    DenotingIsOk(buf, Letter(c), [c]);
    assert FactFor(SrvData(0, 0, 5555, Letter(c)), [b], [c]) == Service([b], [c], 5555);
  }

  lemma AMeans(buf: seq<Byte>, b: Byte, ip: U32)
    requires b < 0x80
    ensures Means(buf, Record(Letter(b), AData(ip)), Address([b], V4(ip)))
  {
    hide Denotes, ServiceOf;
    LetterDenotes(buf, b);
    DenotingIsOk(buf, Letter(b), [b]);
    assert FactFor(AData(ip), [b], []) == Address([b], V4(ip));
  }

  lemma DenotingIsOk(buf: seq<Byte>, w: WireName, name: Text)
    requires Denotes(buf, w, name)
    ensures w.Ok()
  {
  }

  lemma TwinMeans(buf: seq<Byte>)
    ensures forall i :: 0 <= i < |TWIN_RECORDS| ==> Means(buf, TWIN_RECORDS[i], TWIN_FACTS[i])
  {
    hide Means, Record, Letter, LegacyType;
    PtrMeans(buf, 0x61);
    PtrMeans(buf, 0x62);
    SrvMeans(buf, 0x61, 0x63);
    SrvMeans(buf, 0x62, 0x64);
    AMeans(buf, 0x63, SHARED_IP);
    AMeans(buf, 0x64, SHARED_IP);
  }

  lemma MeaningIsOk(buf: seq<Byte>, r: WireRecord, fact: Fact)
    requires Means(buf, r, fact)
    ensures r.Ok()
  {
  }

  lemma TwinSays()
    ensures Says(TWIN_ADVERT, TWIN_FACTS)
  {
    hide Means, Record, Letter, LegacyType, WireRecord.Ok, WireMessage.Encode;
    TwinMeans([]);
    assert TWIN_ADVERT.All() == TWIN_RECORDS;
    forall i | 0 <= i < |TWIN_RECORDS| ensures TWIN_RECORDS[i].Ok() {
      MeaningIsOk([], TWIN_RECORDS[i], TWIN_FACTS[i]);
    }
    TwinMeans(TWIN_ADVERT.Encode());
  }

  lemma {:induction false} NoArrivals(facts: seq<Fact>, host: Text)
    requires forall f :: f in facts ==> !f.Address?
    ensures Arrivals(facts, host) == []
  {
    if facts != [] {
      assert facts[|facts| - 1] in facts;
      NoArrivals(facts[..|facts| - 1], host);
    }
  }

  lemma TwinArrivals(host: Text)
    requires host == [0x63] || host == [0x64]
    ensures Arrivals(TWIN_FACTS, host) == [V4(SHARED_IP)]
  {
    hide Arrivals;
    var known := TWIN_FACTS[..4];
    NoArrivals(known, host);
    assert [0x63][0] != [0x64][0];
    OneMoreArrival(known, TWIN_FACTS[4], host);
    OneMoreArrival(known + [TWIN_FACTS[4]], TWIN_FACTS[5], host);
    assert TWIN_FACTS == known + [TWIN_FACTS[4]] + [TWIN_FACTS[5]];
  }

  lemma LastServiceAppend(facts: seq<Fact>, f: Fact, name: Text)
    ensures LastService(facts + [f], name)
         == if f.Service? && f.name == name then Some(Srv(f.target, f.port)) else LastService(facts, name)
  {
    assert (facts + [f])[..|facts|] == facts;
  }

  lemma TwinService(name: Text)
    requires name == [0x61] || name == [0x62]
    ensures LastService(TWIN_FACTS, name) == Some(Srv(if name == [0x61] then [0x63] else [0x64], 5555))
  {
    hide LastService;
    assert [0x61][0] != [0x62][0];
    LastServiceAppend(TWIN_FACTS[..2], TWIN_FACTS[2], name);
    LastServiceAppend(TWIN_FACTS[..2] + [TWIN_FACTS[2]], TWIN_FACTS[3], name);
    LastServiceAppend(TWIN_FACTS[..4], TWIN_FACTS[4], name);
    LastServiceAppend(TWIN_FACTS[..4] + [TWIN_FACTS[4]], TWIN_FACTS[5], name);
    assert TWIN_FACTS[..4] == TWIN_FACTS[..2] + [TWIN_FACTS[2]] + [TWIN_FACTS[3]];
    assert TWIN_FACTS == TWIN_FACTS[..4] + [TWIN_FACTS[4]] + [TWIN_FACTS[5]];
  }

  lemma TwinsShare()
    ensures SharesEndpoint(TWIN_FACTS, Legacy, [0x61], [0x62])
  {
    hide Preferred, LastService, Arrivals;
    TwinArrivals([0x63]);
    TwinArrivals([0x64]);
    assert [0x61][0] != [0x62][0];
    TwinService([0x61]);
    TwinService([0x62]);
    PreferredNonempty([V4(SHARED_IP)]);
    assert TWIN_FACTS[0] in TWIN_FACTS && TWIN_FACTS[1] in TWIN_FACTS;
  }

  /** A datagram after which discovery reports two instances at one endpoint, though their SRVs name
      different targets. */
  lemma OneEndpointTwice()
    ensures TWIN_ADVERT.Ok() && !EndpointsApart(Discovered([TWIN_ADVERT.Encode()]))
  {
    hide SharesEndpoint, WireMessage.Encode, Services, LearnAll, Means, Message;
    TwinSays();
    MessagesAreUnderstood([TWIN_ADVERT], [TWIN_ADVERT.Encode()], [TWIN_FACTS]);
    assert Collect(ItemsOf, [TWIN_FACTS]) == TWIN_FACTS by {
      assert [TWIN_FACTS][..0] == [];
    }
    TwinsShare();
    SharedEndpointsAreNotMerged(TWIN_FACTS);
  }
}

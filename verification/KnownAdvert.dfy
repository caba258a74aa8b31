/** One advertisement byte by byte, and what discovery makes of it. */
module KnownAdvert {
  import opened Net
  import opened Sequences
  import opened Utf8
  import opened DnsName
  import opened DnsCursor
  import opened DnsMessage
  import opened Discovery
  import opened DnsQuery
  import opened Mdns

  /** A response with four records: a PTR of _adb._tcp.local to instance x, x's SRV with port 5555 and
      target h.local, and of h.local first fe80::1 and then 192.168.1.42. Repeated names are pointers. */
  const HEADER: seq<Byte> := [0, 0, 0x84, 0, 0, 0, 0, 4, 0, 0, 0, 0]  // id, flags, and the counts 0, 4, 0, 0
  const L_ADB: seq<Byte> := [4, 0x5F, 0x61, 0x64, 0x62]  // _adb
  const L_TCP: seq<Byte> := [4, 0x5F, 0x74, 0x63, 0x70]  // _tcp
  const L_LOCAL: seq<Byte> := [5, 0x6C, 0x6F, 0x63, 0x61, 0x6C]  // local
  const ROOT: seq<Byte> := [0]
  const PTR_FIXED: seq<Byte> := [0, 12, 0, 1, 0, 0, 0, 120, 0, 4]  // type 12, class, ttl, 4 bytes
  const L_X: seq<Byte> := [1, 0x78]  // x
  const TO_TYPE: seq<Byte> := [0xC0, 12]  // pointer to offset 12
  const TO_INSTANCE: seq<Byte> := [0xC0, 39]  // pointer to offset 39
  const SRV_FIXED: seq<Byte> := [0, 33, 0x80, 1, 0, 0, 0, 120, 0, 10]  // type 33, class, ttl, 10 bytes
  const SRV_HEAD: seq<Byte> := [0, 0, 0, 0, 0x15, 0xB3]  // priority, weight, port 5555
  const L_H: seq<Byte> := [1, 0x68]  // h
  const TO_LOCAL: seq<Byte> := [0xC0, 22]  // pointer to offset 22
  const TO_HOST: seq<Byte> := [0xC0, 61]  // pointer to offset 61
  const AAAA_FIXED: seq<Byte> := [0, 28, 0x80, 1, 0, 0, 0, 120, 0, 16]  // type 28, class, ttl, 16 bytes
  const V6_BYTES: seq<Byte> := [0xFE, 0x80, 0, 0, 0, 0, 0, 0, 0, 0, 0, 0, 0, 0, 0, 1]  // fe80::1
  const A_FIXED: seq<Byte> := [0, 1, 0x80, 1, 0, 0, 0, 120, 0, 4]  // type 1, class, ttl, 4 bytes
  const V4_BYTES: seq<Byte> := [192, 168, 1, 42]  // 192.168.1.42

  const ADVERT: seq<Byte> :=
    HEADER + (L_ADB + (L_TCP + (L_LOCAL + (ROOT + (PTR_FIXED + (L_X + (TO_TYPE + (TO_INSTANCE +
    (SRV_FIXED + (SRV_HEAD + (L_H + (TO_LOCAL + (TO_HOST + (AAAA_FIXED + (V6_BYTES + (TO_HOST + (A_FIXED
    + (V4_BYTES))))))))))))))))))

  lemma Parts()
    ensures |ADVERT| == 109
    ensures Stands(ADVERT, 0, HEADER)
    ensures Stands(ADVERT, 12, L_ADB)
    ensures Stands(ADVERT, 17, L_TCP)
    ensures Stands(ADVERT, 22, L_LOCAL)
    ensures Stands(ADVERT, 28, ROOT)
    ensures Stands(ADVERT, 29, PTR_FIXED)
    ensures Stands(ADVERT, 39, L_X)
    ensures Stands(ADVERT, 41, TO_TYPE)
    ensures Stands(ADVERT, 43, TO_INSTANCE)
    ensures Stands(ADVERT, 45, SRV_FIXED)
    ensures Stands(ADVERT, 55, SRV_HEAD)
    ensures Stands(ADVERT, 61, L_H)
    ensures Stands(ADVERT, 63, TO_LOCAL)
    ensures Stands(ADVERT, 65, TO_HOST)
    ensures Stands(ADVERT, 67, AAAA_FIXED)
    ensures Stands(ADVERT, 77, V6_BYTES)
    ensures Stands(ADVERT, 93, TO_HOST)
    ensures Stands(ADVERT, 95, A_FIXED)
    ensures Stands(ADVERT, 105, V4_BYTES)
  {
    var r18 := V4_BYTES;
    var r17 := A_FIXED + r18;
    var r16 := TO_HOST + r17;
    var r15 := V6_BYTES + r16;
    var r14 := AAAA_FIXED + r15;
    var r13 := TO_HOST + r14;
    var r12 := TO_LOCAL + r13;
    var r11 := L_H + r12;
    var r10 := SRV_HEAD + r11;
    var r9 := SRV_FIXED + r10;
    var r8 := TO_INSTANCE + r9;
    var r7 := TO_TYPE + r8;
    var r6 := L_X + r7;
    var r5 := PTR_FIXED + r6;
    var r4 := ROOT + r5;
    var r3 := L_LOCAL + r4;
    var r2 := L_TCP + r3;
    var r1 := L_ADB + r2;
    assert ADVERT == HEADER + r1 && Stands(ADVERT, 0, ADVERT);
    StandsApart(ADVERT, 0, HEADER, r1);
    StandsApart(ADVERT, 12, L_ADB, r2);
    StandsApart(ADVERT, 17, L_TCP, r3);
    StandsApart(ADVERT, 22, L_LOCAL, r4);
    StandsApart(ADVERT, 28, ROOT, r5);
    StandsApart(ADVERT, 29, PTR_FIXED, r6);
    StandsApart(ADVERT, 39, L_X, r7);
    StandsApart(ADVERT, 41, TO_TYPE, r8);
    StandsApart(ADVERT, 43, TO_INSTANCE, r9);
    StandsApart(ADVERT, 45, SRV_FIXED, r10);
    StandsApart(ADVERT, 55, SRV_HEAD, r11);
    StandsApart(ADVERT, 61, L_H, r12);
    StandsApart(ADVERT, 63, TO_LOCAL, r13);
    StandsApart(ADVERT, 65, TO_HOST, r14);
    StandsApart(ADVERT, 67, AAAA_FIXED, r15);
    StandsApart(ADVERT, 77, V6_BYTES, r16);
    StandsApart(ADVERT, 93, TO_HOST, r17);
    StandsApart(ADVERT, 95, A_FIXED, r18);
  }

  const INSTANCE: Text := [0x78, 0x2E, 0x5F, 0x61, 0x64, 0x62, 0x2E, 0x5F, 0x74, 0x63, 0x70, 0x2E, 0x6C, 0x6F, 0x63, 0x61, 0x6C]
  const HOST: Text := [0x68, 0x2E, 0x6C, 0x6F, 0x63, 0x61, 0x6C]
  const LOCAL_V6: Octets := [0xFE, 0x80, 0, 0, 0, 0, 0, 0, 0, 0, 0, 0, 0, 0, 0, 1]

  const ADB: Text := [0x5F, 0x61, 0x64, 0x62]
  const TCP: Text := [0x5F, 0x74, 0x63, 0x70]
  const LOCAL: Text := [0x6C, 0x6F, 0x63, 0x61, 0x6C]

  // ---- Names in it ----

  lemma LabelHere(buf: seq<Byte>, p: nat, text: Text)
    requires 1 <= |text| <= 63 && Stands(buf, p, [|text|] + text)
    requires forall i :: 0 <= i < |text| ==> text[i] < 0x80
    ensures NodeAt(buf, p) == Label(text, p + 1 + |text|)
  {
    hide ValidUtf8, NodeAt;
    AsciiIsValid(text);
    LabelIsRead(buf, p, text);
  }

  lemma PointerHere(buf: seq<Byte>, p: nat, lo: Byte)
    requires Stands(buf, p, [0xC0, lo])
    ensures NodeAt(buf, p) == Jump(lo)
  {
    hide NodeAt;
    ByteStands(buf, p, [0xC0, lo], 0);
    ByteStands(buf, p, [0xC0, lo], 1);
    NodeByNumbers(buf, p);
  }

  lemma ByteStands(buf: seq<Byte>, o: nat, part: seq<Byte>, k: nat)
    requires Stands(buf, o, part) && k < |part|
    ensures o + k < |buf| && buf[o + k] == part[k]
  {
    assert buf[o..o + |part|][k] == buf[o + k];
  }

  lemma WordStands(buf: seq<Byte>, o: nat, part: seq<Byte>, k: nat)
    requires Stands(buf, o, part) && k + 1 < |part|
    ensures o + k + 2 <= |buf| && U16At(buf, o + k) == (part[k] as int) * 256 + part[k + 1]
  {
    ByteStands(buf, o, part, k);
    ByteStands(buf, o, part, k + 1);
  }

  lemma NodesOfType()
    ensures NodeAt(ADVERT, 12) == Label(ADB, 17) && NodeAt(ADVERT, 17) == Label(TCP, 22)
    ensures NodeAt(ADVERT, 22) == Label(LOCAL, 28) && NodeAt(ADVERT, 28) == End
  {
    hide NodeAt;
    Parts();
    hide ADVERT;
    assert [4] + ADB == L_ADB && [4] + TCP == L_TCP && [5] + LOCAL == L_LOCAL;
    LabelHere(ADVERT, 12, ADB);
    LabelHere(ADVERT, 17, TCP);
    LabelHere(ADVERT, 22, LOCAL);
    TerminatorIsRead(ADVERT, 28);
  }

  lemma OtherNodes()
    ensures NodeAt(ADVERT, 39) == Label([0x78], 41) && NodeAt(ADVERT, 41) == Jump(12)
    ensures NodeAt(ADVERT, 43) == Jump(39) && NodeAt(ADVERT, 61) == Label([0x68], 63) && NodeAt(ADVERT, 63) == Jump(22)
    ensures NodeAt(ADVERT, 65) == Jump(61) && NodeAt(ADVERT, 93) == Jump(61)
  {
    hide NodeAt;
    Parts();
    hide ADVERT;
    assert [1] + [0x78] == L_X && [1] + [0x68] == L_H;
    LabelHere(ADVERT, 39, [0x78]);
    LabelHere(ADVERT, 61, [0x68]);
    PointerHere(ADVERT, 41, 12);
    PointerHere(ADVERT, 43, 39);
    PointerHere(ADVERT, 63, 22);
    PointerHere(ADVERT, 65, 61);
    PointerHere(ADVERT, 93, 61);
  }

  lemma DecodeLabel(buf: seq<Byte>, p: nat, budget: nat, rest: seq<Text>)
    requires budget > 0 && NodeAt(buf, p).Label? && Decode(buf, NodeAt(buf, p).after, budget - 1) == Some(rest)
    ensures Decode(buf, p, budget) == Some([NodeAt(buf, p).text] + rest)
  {
    hide NodeAt;
  }

  lemma DecodeJump(buf: seq<Byte>, p: nat, budget: nat)
    requires budget > 0 && NodeAt(buf, p).Jump?
    ensures Decode(buf, p, budget) == Decode(buf, NodeAt(buf, p).target, budget - 1)
  {
    hide NodeAt;
  }

  lemma DecodeEnd(buf: seq<Byte>, p: nat, budget: nat)
    requires budget > 0 && NodeAt(buf, p).End?
    ensures Decode(buf, p, budget) == Some([])
  {
    hide NodeAt;
  }

  lemma LocalDecodes(budget: nat)
    requires budget >= 2
    ensures Decode(ADVERT, 22, budget) == Some([LOCAL])
  {
    hide Decode, NodeAt;
    NodesOfType();
    DecodeEnd(ADVERT, 28, budget - 1);
    DecodeLabel(ADVERT, 22, budget, []);
    assert [LOCAL] + [] == [LOCAL];
  }

  lemma TypeDecodes(budget: nat)
    requires budget >= 4
    ensures Decode(ADVERT, 12, budget) == Some([ADB, TCP, LOCAL])
  {
    hide Decode, NodeAt;
    NodesOfType();
    LocalDecodes(budget - 2);
    DecodeLabel(ADVERT, 17, budget - 1, [LOCAL]);
    DecodeLabel(ADVERT, 12, budget, [TCP] + [LOCAL]);
    assert [ADB] + ([TCP] + [LOCAL]) == [ADB, TCP, LOCAL];
  }

  lemma InstanceDecodes(budget: nat)
    requires budget >= 7
    ensures Decode(ADVERT, 39, budget) == Decode(ADVERT, 43, budget) == Some([[0x78], ADB, TCP, LOCAL])
  {
    hide Decode, NodeAt;
    OtherNodes();
    InstanceOnceDecodes(budget);
    InstanceOnceDecodes(budget - 1);
    DecodeJump(ADVERT, 43, budget);
  }

  lemma InstanceOnceDecodes(budget: nat)
    requires budget >= 6
    ensures Decode(ADVERT, 39, budget) == Some([[0x78], ADB, TCP, LOCAL])
  {
    hide Decode, NodeAt;
    OtherNodes();
    TypeDecodes(budget - 2);
    DecodeJump(ADVERT, 41, budget - 1);
    DecodeLabel(ADVERT, 39, budget, [ADB, TCP, LOCAL]);
    assert [[0x78]] + [ADB, TCP, LOCAL] == [[0x78], ADB, TCP, LOCAL];
  }

  lemma HostOnceDecodes(budget: nat)
    requires budget >= 4
    ensures Decode(ADVERT, 61, budget) == Some([[0x68], LOCAL])
  {
    hide Decode, NodeAt;
    OtherNodes();
    LocalDecodes(budget - 2);
    DecodeJump(ADVERT, 63, budget - 1);
    DecodeLabel(ADVERT, 61, budget, [LOCAL]);
    assert [[0x68]] + [LOCAL] == [[0x68], LOCAL];
  }

  lemma HostDecodes(budget: nat)
    requires budget >= 5
    ensures Decode(ADVERT, 61, budget) == Decode(ADVERT, 65, budget) == Decode(ADVERT, 93, budget) == Some([[0x68], LOCAL])
  {
    hide Decode, NodeAt;
    OtherNodes();
    HostOnceDecodes(budget);
    HostOnceDecodes(budget - 1);
    DecodeJump(ADVERT, 65, budget);
    DecodeJump(ADVERT, 93, budget);
  }

  lemma CursorsMove(budget: nat)
    requires budget >= 4
    ensures CursorAfter(ADVERT, 12, budget, 12) == 29 && CursorAfter(ADVERT, 43, budget, 43) == 45
    ensures CursorAfter(ADVERT, 65, budget, 65) == 67 && CursorAfter(ADVERT, 93, budget, 93) == 95
  {
    hide NodeAt;
    NodesOfType();
    OtherNodes();
    assert CursorAfter(ADVERT, 28, budget - 3, 12) == 29;
    assert CursorAfter(ADVERT, 22, budget - 2, 12) == 29;
    assert CursorAfter(ADVERT, 17, budget - 1, 12) == 29;
  }

  lemma Texts()
    ensures Dotted([ADB, TCP, LOCAL]) == Ascii("_adb._tcp.local")
    ensures Dotted([[0x78], ADB, TCP, LOCAL]) == INSTANCE && Dotted([[0x68], LOCAL]) == HOST
  {
    hide Dotted;
    DottedOne(LOCAL);
    DottedFront(TCP, [LOCAL]);
    DottedFront(ADB, [TCP, LOCAL]);
    DottedFront([0x78], [ADB, TCP, LOCAL]);
    DottedFront([0x68], [LOCAL]);
    assert [TCP] + [LOCAL] == [TCP, LOCAL] && [ADB] + [TCP, LOCAL] == [ADB, TCP, LOCAL];
    assert [[0x78]] + [ADB, TCP, LOCAL] == [[0x78], ADB, TCP, LOCAL] && [[0x68]] + [LOCAL] == [[0x68], LOCAL];
    hide Ascii, FirstLabel;
    ServiceTypeLabels(2);
    LegacyLetters();
    assert ADB_SERVICES[2].0 == ThreeLabels(ADB, TCP, LOCAL);
  }

  lemma NamesRead()
    ensures NameAt(ADVERT, 12) == Some(Ascii("_adb._tcp.local")) && EndOfName(ADVERT, 12) == 29
    ensures NameAt(ADVERT, 39) == NameAt(ADVERT, 43) == Some(INSTANCE) && EndOfName(ADVERT, 43) == 45
    ensures NameAt(ADVERT, 61) == NameAt(ADVERT, 65) == NameAt(ADVERT, 93) == Some(HOST)
    ensures EndOfName(ADVERT, 65) == 67 && EndOfName(ADVERT, 93) == 95
  {
    hide Decode, CursorAfter, NodeAt, Dotted, NameAt, EndOfName, Ascii;
    var budget: nat := NAME_BUDGET;
    TypeDecodes(budget);
    InstanceDecodes(budget);
    HostDecodes(budget);
    CursorsMove(budget);
    Texts();
    NameByBudget(ADVERT, 12, budget);
    NameByBudget(ADVERT, 39, budget);
    NameByBudget(ADVERT, 43, budget);
    NameByBudget(ADVERT, 61, budget);
    NameByBudget(ADVERT, 65, budget);
    NameByBudget(ADVERT, 93, budget);
  }

  // ---- Its records ----

  lemma PtrRead()
    ensures RecordAt(ADVERT, 12) == Some((Pointer(Legacy, INSTANCE), 43))
  {
    hide NameAt, EndOfName, ServiceOf, Ascii;
    NamesRead();
    KindsByName();
    Parts();
    hide ADVERT;
    WordStands(ADVERT, 29, PTR_FIXED, 0);
    WordStands(ADVERT, 29, PTR_FIXED, 8);
  }

  lemma SrvRead()
    ensures RecordAt(ADVERT, 43) == Some((Service(INSTANCE, HOST, 5555), 65))
  {
    hide NameAt, EndOfName, ServiceOf, Ascii;
    NamesRead();
    Parts();
    hide ADVERT;
    WordStands(ADVERT, 45, SRV_FIXED, 0);
    WordStands(ADVERT, 45, SRV_FIXED, 8);
    WordStands(ADVERT, 55, SRV_HEAD, 4);
  }

  lemma AaaaRead()
    ensures RecordAt(ADVERT, 65) == Some((Address(HOST, V6(LOCAL_V6)), 93))
  {
    hide NameAt, EndOfName, ServiceOf, Ascii;
    NamesRead();
    Parts();
    hide ADVERT;
    WordStands(ADVERT, 67, AAAA_FIXED, 0);
    WordStands(ADVERT, 67, AAAA_FIXED, 8);
  }

  lemma ARead()
    ensures RecordAt(ADVERT, 93) == Some((Address(HOST, V4(0xC0A8_012A)), 109))
  {
    hide NameAt, EndOfName, ServiceOf, Ascii;
    NamesRead();
    Parts();
    hide ADVERT;
    WordStands(ADVERT, 95, A_FIXED, 0);
    WordStands(ADVERT, 95, A_FIXED, 8);
    WordStands(ADVERT, 105, V4_BYTES, 0);
    WordStands(ADVERT, 105, V4_BYTES, 2);
  }

  const FACTS: seq<Fact> := [
    Pointer(Legacy, INSTANCE),
    Service(INSTANCE, HOST, 5555),
    Address(HOST, V6(LOCAL_V6)),
    Address(HOST, V4(0xC0A8_012A))]

  lemma RecordsStep(buf: seq<Byte>, p: nat, n: nat, fact: Fact, q: nat)
    requires n > 0 && RecordAt(buf, p) == Some((fact, q))
    ensures Records(buf, p, n)
         == Parsed([fact] + Records(buf, q, n - 1).facts, Records(buf, q, n - 1).complete)
  {
    hide RecordAt;
  }

  /** The message is read to its end. */
  lemma AdvertRead()
    ensures Message(ADVERT) == Parsed(FACTS, true)
  {
    hide RecordAt, Records;
    PtrRead();
    SrvRead();
    AaaaRead();
    ARead();
    RecordsStep(ADVERT, 12, 4, FACTS[0], 43);
    RecordsStep(ADVERT, 43, 3, FACTS[1], 65);
    RecordsStep(ADVERT, 65, 2, FACTS[2], 93);
    RecordsStep(ADVERT, 93, 1, FACTS[3], 109);
    NoRecords(ADVERT, 109);
    assert [FACTS[0]] + ([FACTS[1]] + ([FACTS[2]] + ([FACTS[3]] + []))) == FACTS;
    Parts();
    WordStands(ADVERT, 0, HEADER, 4);
    WordStands(ADVERT, 0, HEADER, 6);
    WordStands(ADVERT, 0, HEADER, 8);
    WordStands(ADVERT, 0, HEADER, 10);
    assert Questions(ADVERT, 12, 0) == Some(12);
  }

  lemma NoRecords(buf: seq<Byte>, p: nat)
    ensures Records(buf, p, 0) == Parsed([], true)
  {
  }

  // ---- The service it advertises ----

  const SERVICE: AdbService := AdbService(
    Legacy, INSTANCE, V4(0xC0A8_012A), [V4(0xC0A8_012A), V6(LOCAL_V6)], 5555)

  lemma FactsTell()
    ensures LastService(FACTS, INSTANCE) == Some(Srv(HOST, 5555))
    ensures Arrivals(FACTS, HOST) == [V6(LOCAL_V6), V4(0xC0A8_012A)]
  {
    hide LastService, Arrivals;
    var head := FACTS[..1];
    assert FACTS == head + [FACTS[1]] + [FACTS[2]] + [FACTS[3]];
    NoArrivals(head, HOST);
    OneMoreArrival(head, FACTS[1], HOST);
    OneMoreArrival(head + [FACTS[1]], FACTS[2], HOST);
    OneMoreArrival(head + [FACTS[1]] + [FACTS[2]], FACTS[3], HOST);
    LastServiceAppend(head, FACTS[1], INSTANCE);
    LastServiceAppend(head + [FACTS[1]], FACTS[2], INSTANCE);
    LastServiceAppend(head + [FACTS[1]] + [FACTS[2]], FACTS[3], INSTANCE);
  }

  lemma AddressesByFamily()
    ensures ByFamily(FirstOccurrences<IpAddr>([V6(LOCAL_V6), V4(0xC0A8_012A)])) == SERVICE.ips
  {
    var x, y := V6(LOCAL_V6), V4(0xC0A8_012A);
    hide Collect, FirstOccurrences;
    assert LOCAL_V6[0] == 0xFE && LOCAL_V6[1] / 64 == 2;
    TwoFirsts<IpAddr>(x, y);
    CollectTwo<IpAddr, IpAddr>(IfV4, x, y);
    CollectTwo<IpAddr, IpAddr>(IfGlobalV6, x, y);
    CollectTwo<IpAddr, IpAddr>(IfLinkLocalV6, x, y);
  }

  /** After this datagram discovery reports that one service: the IPv4 address first, though it came
      last. */
  lemma KnownAnswer()
    ensures Discovered([ADVERT]) == [SERVICE]
  {
    hide Message, Services, LearnAll, LastService, Arrivals, ByFamily, FirstOccurrences;
    AdvertRead();
    assert FactsOf([ADVERT]) == FACTS by {
      CollectOne<seq<Byte>, Fact>(FactsIn, ADVERT);
    }
    FactsTell();
    AddressesByFamily();
    var out := Services(LearnAll(NOTHING_KNOWN, FACTS));
    forall s: AdbService ensures s in out <==> s == SERVICE {
      ReportedIffAdvertised(FACTS, s);
      assert FACTS[0] in FACTS;
      assert forall f :: f in FACTS && f.Pointer? ==> f == FACTS[0];
    }
    JoinIsExact(LearnAll(NOTHING_KNOWN, FACTS));
    OnlyOne(out, SERVICE);
  }

  lemma OnlyOne(out: seq<AdbService>, s: AdbService)
    requires forall x :: x in out <==> x == s
    requires forall i, j :: 0 <= i < j < |out| ==> Discovery.KeyOf(out[i]) != Discovery.KeyOf(out[j])
    ensures out == [s]
  {
    assert s in out;
    assert Distinct(out);
    DistinctBounded(out, {s});
    assert out[0] in out;
  }
}

/** Whole messages: what the record loop extracts from arbitrary bytes, and that it reads back
    every message in wire form (sections 4.1.1 to 4.1.4 of RFC 1035, SRV of RFC 2782, AAAA of
    section 2.2 of RFC 3596). */
module DnsMessage {
  import opened Net
  import opened Utf8
  import opened DnsName
  import opened DnsCursor

  datatype ServiceKind = Connect | Pairing | Legacy

  function Ascii(s: string): Text {
    seq(|s|, i requires 0 <= i < |s| => (s[i] as nat) % 0x80)
  }

  /** The service types in the order in which they are tried. */
  const ADB_SERVICES: seq<(Text, ServiceKind)> := [
    (Ascii("_adb-tls-connect._tcp.local"), Connect),
    (Ascii("_adb-tls-pairing._tcp.local"), Pairing),
    (Ascii("_adb._tcp.local"), Legacy)]

  function Lower(b: Byte): Byte {
    if 0x41 <= b <= 0x5A then b + 0x20 else b
  }

  predicate EqIgnoreCase(a: Text, b: Text) {
    |a| == |b| && forall i :: 0 <= i < |a| ==> Lower(a[i]) == Lower(b[i])
  }

  function FirstService(name: Text, services: seq<(Text, ServiceKind)>): Option<ServiceKind> {
    if services == [] then None
    else if EqIgnoreCase(name, services[0].0) then Some(services[0].1)
    else FirstService(name, services[1..])
  }

  function ServiceOf(name: Text): Option<ServiceKind> {
    FirstService(name, ADB_SERVICES)
  }

  /** What one resource record contributes. */
  datatype Fact =
    | Pointer(kind: ServiceKind, instance: Text)
    | Service(name: Text, target: Text, port: U16)
    | Address(host: Text, ip: IpAddr)
    | Nothing

  datatype Parsed = Parsed(facts: seq<Fact>, complete: bool)

  function U32At(buf: seq<Byte>, p: nat): U32
    requires p + 4 <= |buf|
  {
    U16At(buf, p) * 0x1_0000 + U16At(buf, p + 2)
  }

  /** The contribution of a record whose data occupies `len` bytes at `d`. Names inside the data may
      run on past it, as they are read against the whole message. */
  function FactOf(buf: seq<Byte>, name: Text, rtype: U16, d: nat, len: nat): Fact
    requires d + len <= |buf|
  {
    if rtype == 12 then
      match (NameAt(buf, d), ServiceOf(name))
      case (Some(target), Some(kind)) => Pointer(kind, target)
      case _ => Nothing
    else if rtype == 33 && len >= 6 then
      match NameAt(buf, d + 6)
      case Some(target) => Service(name, target, U16At(buf, d + 4))
      case None => Nothing
    else if rtype == 1 && len == 4 then Address(name, V4(U32At(buf, d)))
    else if rtype == 28 && len == 16 then Address(name, V6(buf[d..d + 16]))
    else Nothing
  }

  /** The record at `p` and the offset behind it. */
  function RecordAt(buf: seq<Byte>, p: nat): Option<(Fact, nat)> {
    match NameAt(buf, p)
    case None => None
    case Some(name) =>
      var h := EndOfName(buf, p);
      if h + 10 > |buf| then None
      else
        var len := U16At(buf, h + 8);
        if h + 10 + len > |buf| then None
        else Some((FactOf(buf, name, U16At(buf, h), h + 10, len), h + 10 + len))
  }

  /** Up to `n` records from `p` on, stopping at the first that cannot be read. */
  function Records(buf: seq<Byte>, p: nat, n: nat): Parsed
    decreases n
  {
    if n == 0 then Parsed([], true)
    else
      match RecordAt(buf, p)
      case None => Parsed([], false)
      case Some((fact, q)) =>
        var rest := Records(buf, q, n - 1);
        Parsed([fact] + rest.facts, rest.complete)
  }

  /** Skip `n` questions. */
  function Questions(buf: seq<Byte>, p: nat, n: nat): Option<nat>
    decreases n
  {
    if n == 0 then Some(p)
    else if NameAt(buf, p) == None || EndOfName(buf, p) + 4 > |buf| then None
    else Questions(buf, EndOfName(buf, p) + 4, n - 1)
  }

  function RecordCount(buf: seq<Byte>): nat
    requires |buf| >= 12
  {
    U16At(buf, 6) + U16At(buf, 8) + U16At(buf, 10)
  }

  function Message(buf: seq<Byte>): Parsed {
    if |buf| < 12 then Parsed([], false)
    else
      match Questions(buf, 12, U16At(buf, 4))
      case None => Parsed([], false)
      case Some(p) => Records(buf, p, RecordCount(buf))
  }

  /** What each type of record contributes, in numbers: nothing but these, and these exactly if type,
      length and names are right. */
  lemma FactsByNumbers(buf: seq<Byte>, name: Text, rtype: U16, d: nat, len: nat)
    requires d + len <= |buf|
    ensures var fact := FactOf(buf, name, rtype, d, len);
            && (fact.Pointer? <==> rtype == 12 && NameAt(buf, d).Some? && ServiceOf(name).Some?)
            && (fact.Pointer? ==> ServiceOf(name) == Some(fact.kind) && NameAt(buf, d) == Some(fact.instance))
            && (fact.Service? <==> rtype == 33 && len >= 6 && NameAt(buf, d + 6).Some?)
            && (fact.Service? ==>
                  && fact.name == name && NameAt(buf, d + 6) == Some(fact.target)
                  && fact.port == (buf[d + 4] as int) * 256 + buf[d + 5])
            && (fact.Address? <==> (rtype == 1 && len == 4) || (rtype == 28 && len == 16))
            && (fact.Address? ==> fact.host == name && (fact.ip.V4? <==> rtype == 1))
            && (fact.Address? && fact.ip.V4? ==>
                  fact.ip.bits == (((buf[d] as int) * 256 + buf[d + 1]) * 256 + buf[d + 2]) * 256 + buf[d + 3])
            && (fact.Address? && fact.ip.V6? ==> forall i :: 0 <= i < 16 ==> fact.ip.octets[i] == buf[d + i])
  {
    hide NameAt, ServiceOf;
  }

  // ---- Bounds on arbitrary bytes ----

  lemma NameAdvances(buf: seq<Byte>, p: nat)
    requires NameAt(buf, p).Some?
    ensures p < EndOfName(buf, p) <= |buf|
  {
    hide Decode, CursorAfter;
    DecodeAdvances(buf, p, NAME_BUDGET, p);
  }

  /** Every record that can be read takes at least eleven bytes and ends inside the buffer. */
  lemma RecordsTakeSpace(buf: seq<Byte>, p: nat)
    requires RecordAt(buf, p).Some?
    ensures p + 11 <= RecordAt(buf, p).value.1 <= |buf|
  {
    hide NameAt, EndOfName, FactOf;
    NameAdvances(buf, p);
  }

  lemma {:induction false} QuestionsAdvance(buf: seq<Byte>, p: nat, n: nat)
    requires Questions(buf, p, n).Some?
    ensures p + 5 * n <= Questions(buf, p, n).value && (p <= |buf| ==> Questions(buf, p, n).value <= |buf|)
    decreases n
  {
    hide NameAt, EndOfName;
    if n > 0 {
      NameAdvances(buf, p);
      QuestionsAdvance(buf, EndOfName(buf, p) + 4, n - 1);
    }
  }

  lemma {:induction false} RecordsFit(buf: seq<Byte>, p: nat, n: nat)
    requires p <= |buf|
    ensures p + 11 * |Records(buf, p, n).facts| <= |buf|
    ensures |Records(buf, p, n).facts| <= n
    ensures Records(buf, p, n).complete <==> |Records(buf, p, n).facts| == n
    decreases n
  {
    hide RecordAt;
    if n > 0 && RecordAt(buf, p).Some? {
      RecordsTakeSpace(buf, p);
      RecordsFit(buf, RecordAt(buf, p).value.1, n - 1);
    }
  }

  /** Whatever the header counts claim, at most (len - 12) / 11 records are ever processed. */
  lemma MessageWorkIsBounded(buf: seq<Byte>)
    ensures Message(buf).facts != [] ==> |Message(buf).facts| <= (|buf| - 12) / 11
  {
    hide Questions, Records;
    if |buf| >= 12 && Questions(buf, 12, U16At(buf, 4)).Some? {
      QuestionsAdvance(buf, 12, U16At(buf, 4));
      RecordsFit(buf, Questions(buf, 12, U16At(buf, 4)).value, RecordCount(buf));
    }
  }

  // ---- Wire form ----

  /** A name as written: labels, then a terminator or a pointer. */
  datatype WireName = WireName(labels: seq<Text>, ptr: Option<nat>) {
    predicate Ok() {
      (forall l :: l in labels ==> GoodLabel(l)) && (ptr.Some? ==> ptr.value < 0x4000)
    }

    function Encode(): seq<Byte>
      requires Ok()
    {
      EncodeLabels(labels) + if ptr.Some? then PointerTo(ptr.value) else [0]
    }
  }

  /** In this buffer the written name stands for `name`: a pointer leads to a walk that spells the
      rest, and all the steps fit the reader's budget. */
  ghost predicate Denotes(buf: seq<Byte>, w: WireName, name: Text) {
    && w.Ok()
    && match w.ptr
       case None => |w.labels| + 1 <= NAME_BUDGET && name == Dotted(w.labels)
       case Some(p) =>
         exists path :: Walk(buf, path) && path[0] == p && |w.labels| + 1 + |path| <= NAME_BUDGET
                        && name == Dotted(w.labels + LabelsAlong(buf, path))
  }

  lemma WireNameIsRead(buf: seq<Byte>, o: nat, w: WireName, name: Text)
    requires Denotes(buf, w, name) && Stands(buf, o, w.Encode())
    ensures NameAt(buf, o) == Some(name) && EndOfName(buf, o) == o + |w.Encode()|
  {
    hide Decode, CursorAfter, LabelsAlong, ValidUtf8, EncodeLabels;
    if w.ptr.None? {
      PlainIsDecoded(buf, o, w.labels, NAME_BUDGET);
    } else {
      CompressionPreservesMeaning(buf, o, w.labels, w.ptr.value, NAME_BUDGET);
    }
    NameByBudget(buf, o, NAME_BUDGET);
  }

  function EncodeU16(v: U16): seq<Byte> {
    [v / 0x100, v % 0x100]
  }

  function EncodeU32(v: U32): seq<Byte> {
    EncodeU16(v / 0x1_0000) + EncodeU16(v % 0x1_0000)
  }

  lemma U16IsRead(buf: seq<Byte>, o: nat, v: U16)
    requires Stands(buf, o, EncodeU16(v))
    ensures U16At(buf, o) == v
  {
    var b := buf[o..o + 2];
    assert b[0] == buf[o] && b[1] == buf[o + 1];
  }

  lemma U32IsRead(buf: seq<Byte>, o: nat, v: U32)
    requires Stands(buf, o, EncodeU32(v))
    ensures U32At(buf, o) == v
  {
    StandsApart(buf, o, EncodeU16(v / 0x1_0000), EncodeU16(v % 0x1_0000));
    U16IsRead(buf, o, v / 0x1_0000);
    U16IsRead(buf, o + 2, v % 0x1_0000);
  }

  /** Record data as written; `OtherData` is any record that the reader skips. */
  datatype WireData =
    | PtrData(target: WireName)
    | SrvData(priority: U16, weight: U16, port: U16, target: WireName)
    | AData(bits: U32)
    | AaaaData(octets: Octets)
    | OtherData(rtype: U16, bytes: seq<Byte>)
  {
    predicate Ok() {
      match this
      case PtrData(target) => target.Ok() && |target.Encode()| < 0x1_0000
      case SrvData(_, _, _, target) => target.Ok() && 6 + |target.Encode()| < 0x1_0000
      case OtherData(rtype, bytes) =>
        && |bytes| < 0x1_0000 && rtype != 12 && rtype != 33
        && !(rtype == 1 && |bytes| == 4) && !(rtype == 28 && |bytes| == 16)
      case _ => true
    }

    function Type(): U16 {
      match this
      case PtrData(_) => 12
      case SrvData(_, _, _, _) => 33
      case AData(_) => 1
      case AaaaData(_) => 28
      case OtherData(rtype, _) => rtype
    }

    function Encode(): (r: seq<Byte>)
      requires Ok()
      ensures |r| < 0x1_0000
    {
      match this
      case PtrData(target) => target.Encode()
      case SrvData(priority, weight, port, target) =>
        EncodeU16(priority) + EncodeU16(weight) + (EncodeU16(port) + target.Encode())
      case AData(bits) => EncodeU32(bits)
      case AaaaData(octets) => octets
      case OtherData(_, bytes) => bytes
    }
  }

  datatype WireRecord = WireRecord(name: WireName, cls: U16, ttl: U32, data: WireData) {
    predicate Ok() {
      name.Ok() && data.Ok()
    }

    function Encode(): seq<Byte>
      requires Ok()
    {
      var rd := data.Encode();
      name.Encode() + (EncodeU16(data.Type()) + (EncodeU16(cls) + EncodeU32(ttl) + (EncodeU16(|rd|) + rd)))
    }
  }

  /** What a record says, given the names in it. */
  function FactFor(data: WireData, name: Text, target: Text): Fact {
    match data
    case PtrData(_) => if ServiceOf(name).Some? then Pointer(ServiceOf(name).value, target) else Nothing
    case SrvData(_, _, port, _) => Service(name, target, port)
    case AData(bits) => Address(name, V4(bits))
    case AaaaData(octets) => Address(name, V6(octets))
    case OtherData(_, _) => Nothing
  }

  ghost predicate Means(buf: seq<Byte>, r: WireRecord, fact: Fact) {
    && r.Ok()
    && exists name, target ::
         && Denotes(buf, r.name, name)
         && (r.data.PtrData? || r.data.SrvData? ==> Denotes(buf, r.data.target, target))
         && fact == FactFor(r.data, name, target)
  }

  lemma DataIsRead(buf: seq<Byte>, d: nat, data: WireData, name: Text, target: Text)
    requires data.Ok() && Stands(buf, d, data.Encode())
    requires data.PtrData? || data.SrvData? ==> Denotes(buf, data.target, target)
    ensures FactOf(buf, name, data.Type(), d, |data.Encode()|) == FactFor(data, name, target)
  {
    hide ServiceOf, NameAt, EndOfName, Denotes;
    match data
    case PtrData(w) =>
      WireNameIsRead(buf, d, w, target);
    case SrvData(priority, weight, port, w) =>
      SrvDataIsRead(buf, d, data);
      WireNameIsRead(buf, d + 6, w, target);
    case AData(bits) =>
      U32IsRead(buf, d, bits);
    case _ =>
  }

  lemma SrvDataIsRead(buf: seq<Byte>, d: nat, data: WireData)
    requires data.SrvData? && data.Ok() && Stands(buf, d, data.Encode())
    ensures |data.Encode()| == 6 + |data.target.Encode()|
    ensures U16At(buf, d + 4) == data.port && Stands(buf, d + 6, data.target.Encode())
  {
    hide WireName.Encode;
    var tail := EncodeU16(data.port) + data.target.Encode();
    StandsApart(buf, d, EncodeU16(data.priority) + EncodeU16(data.weight), tail);
    StandsApart(buf, d + 4, EncodeU16(data.port), data.target.Encode());
    U16IsRead(buf, d + 4, data.port);
  }

  /** The fixed part and the data of a written record, behind its name. */
  lemma RecordBodyStands(buf: seq<Byte>, h: nat, r: WireRecord)
    requires r.Ok()
    requires var rd := r.data.Encode();
             Stands(buf, h, EncodeU16(r.data.Type()) + (EncodeU16(r.cls) + EncodeU32(r.ttl) + (EncodeU16(|rd|) + rd)))
    ensures var rd := r.data.Encode();
            && h + 10 + |rd| <= |buf| && U16At(buf, h) == r.data.Type() && U16At(buf, h + 8) == |rd|
            && Stands(buf, h + 10, rd)
  {
    hide WireData.Encode, WireName.Encode;
    var rd := r.data.Encode();
    var skipped := EncodeU16(r.cls) + EncodeU32(r.ttl);
    var sized := EncodeU16(|rd|) + rd;
    StandsApart(buf, h, EncodeU16(r.data.Type()), skipped + sized);
    StandsApart(buf, h + 2, skipped, sized);
    StandsApart(buf, h + 8, EncodeU16(|rd|), rd);
    U16IsRead(buf, h, r.data.Type());
    U16IsRead(buf, h + 8, |rd|);
  }

  /** A written record is read back as what it means, to its last byte. */
  lemma RecordIsRead(buf: seq<Byte>, o: nat, r: WireRecord, fact: Fact)
    requires Means(buf, r, fact) && Stands(buf, o, r.Encode())
    ensures RecordAt(buf, o) == Some((fact, o + |r.Encode()|))
  {
    hide NameAt, EndOfName, FactOf, FactFor, Denotes, WireData.Encode, WireName.Encode;
    var name, target :|
      && Denotes(buf, r.name, name)
      && (r.data.PtrData? || r.data.SrvData? ==> Denotes(buf, r.data.target, target))
      && fact == FactFor(r.data, name, target);
    var rd := r.data.Encode();
    var body := EncodeU16(r.data.Type()) + (EncodeU16(r.cls) + EncodeU32(r.ttl) + (EncodeU16(|rd|) + rd));
    StandsApart(buf, o, r.name.Encode(), body);
    WireNameIsRead(buf, o, r.name, name);
    var h := o + |r.name.Encode()|;
    RecordBodyStands(buf, h, r);
    DataIsRead(buf, h + 10, r.data, name, target);
  }

  function EncodeRecords(records: seq<WireRecord>): seq<Byte>
    requires forall r :: r in records ==> r.Ok()
  {
    if records == [] then [] else records[0].Encode() + EncodeRecords(records[1..])
  }

  lemma {:induction false} RecordsAreRead(buf: seq<Byte>, o: nat, records: seq<WireRecord>, facts: seq<Fact>)
    requires |facts| == |records| && forall i :: 0 <= i < |records| ==> Means(buf, records[i], facts[i])
    requires (forall r :: r in records ==> r.Ok()) && Stands(buf, o, EncodeRecords(records))
    ensures Records(buf, o, |records|) == Parsed(facts, true)
    decreases |records|
  {
    hide RecordAt, Means, WireRecord.Encode, WireRecord.Ok;
    if records != [] {
      var r, tail := records[0], records[1..];
      StandsApart(buf, o, r.Encode(), EncodeRecords(tail));
      RecordIsRead(buf, o, r, facts[0]);
      RecordsAreRead(buf, o + |r.Encode()|, tail, facts[1..]);
      assert facts == [facts[0]] + facts[1..];
    }
  }

  datatype WireQuestion = WireQuestion(name: WireName, qtype: U16, qclass: U16) {
    function Encode(): seq<Byte>
      requires name.Ok()
    {
      name.Encode() + (EncodeU16(qtype) + EncodeU16(qclass))
    }
  }

  function EncodeQuestions(questions: seq<WireQuestion>): seq<Byte>
    requires forall q :: q in questions ==> q.name.Ok()
  {
    if questions == [] then [] else questions[0].Encode() + EncodeQuestions(questions[1..])
  }

  ghost predicate Resolves(buf: seq<Byte>, w: WireName) {
    exists name :: Denotes(buf, w, name)
  }

  lemma {:induction false} QuestionsAreSkipped(buf: seq<Byte>, o: nat, questions: seq<WireQuestion>)
    requires forall q :: q in questions ==> q.name.Ok() && Resolves(buf, q.name)
    requires Stands(buf, o, EncodeQuestions(questions))
    ensures Questions(buf, o, |questions|) == Some(o + |EncodeQuestions(questions)|)
    decreases |questions|
  {
    hide NameAt, EndOfName, Denotes, WireName.Encode, WireName.Ok;
    if questions != [] {
      var q, tail := questions[0], questions[1..];
      assert forall t :: t in tail ==> t in questions;
      StandsApart(buf, o, q.Encode(), EncodeQuestions(tail));
      StandsApart(buf, o, q.name.Encode(), EncodeU16(q.qtype) + EncodeU16(q.qclass));
      var name :| Denotes(buf, q.name, name);
      WireNameIsRead(buf, o, q.name, name);
      QuestionsAreSkipped(buf, o + |q.Encode()|, tail);
    }
  }

  datatype WireMessage = WireMessage(
    id: U16, flags: U16, questions: seq<WireQuestion>,
    answers: seq<WireRecord>, authority: seq<WireRecord>, additional: seq<WireRecord>)
  {
    function All(): seq<WireRecord> {
      answers + authority + additional
    }

    predicate Ok() {
      && (forall q :: q in questions ==> q.name.Ok()) && (forall r :: r in All() ==> r.Ok())
      && |questions| < 0x1_0000 && |answers| < 0x1_0000 && |authority| < 0x1_0000 && |additional| < 0x1_0000
    }

    function Header(): seq<Byte>
      requires Ok()
    {
      (EncodeU16(id) + EncodeU16(flags)) + (EncodeU16(|questions|)
      + (EncodeU16(|answers|) + (EncodeU16(|authority|) + EncodeU16(|additional|))))
    }

    function Encode(): seq<Byte>
      requires Ok()
    {
      Header() + (EncodeQuestions(questions) + EncodeRecords(All()))
    }
  }

  lemma HeaderIsRead(buf: seq<Byte>, m: WireMessage)
    requires m.Ok() && Stands(buf, 0, m.Header())
    ensures |m.Header()| == 12 <= |buf|
    ensures U16At(buf, 4) == |m.questions| && RecordCount(buf) == |m.All()|
  {
    var a, b, c, d := EncodeU16(|m.questions|), EncodeU16(|m.answers|), EncodeU16(|m.authority|), EncodeU16(|m.additional|);
    StandsApart(buf, 0, EncodeU16(m.id) + EncodeU16(m.flags), a + (b + (c + d)));
    StandsApart(buf, 4, a, b + (c + d));
    StandsApart(buf, 6, b, c + d);
    StandsApart(buf, 8, c, d);
    U16IsRead(buf, 4, |m.questions|);
    U16IsRead(buf, 6, |m.answers|);
    U16IsRead(buf, 8, |m.authority|);
    U16IsRead(buf, 10, |m.additional|);
  }

  /** The message, as written, says these things: every name in it resolves within the budget, and
      its records mean the facts in order. */
  ghost predicate Says(m: WireMessage, facts: seq<Fact>) {
    && m.Ok()
    && (forall q :: q in m.questions ==> Resolves(m.Encode(), q.name))
    && |facts| == |m.All()| && forall i :: 0 <= i < |facts| ==> Means(m.Encode(), m.All()[i], facts[i])
  }

  /** Message round trip: any questions and records in wire form, with plain or correctly compressed
      names within the budget, are read back completely and in order, whatever their sections. */
  lemma MessageRoundTrip(m: WireMessage, facts: seq<Fact>)
    requires Says(m, facts)
    ensures Message(m.Encode()) == Parsed(facts, true)
  {
    hide Records, Questions, EncodeRecords, EncodeQuestions, WireMessage.Header, Resolves, Means, RecordCount;
    var buf := m.Encode();
    var qs, rs := EncodeQuestions(m.questions), EncodeRecords(m.All());
    assert Stands(buf, 0, m.Header() + (qs + rs));
    StandsApart(buf, 0, m.Header(), qs + rs);
    HeaderIsRead(buf, m);
    StandsApart(buf, 12, qs, rs);
    QuestionsAreSkipped(buf, 12, m.questions);
    RecordsAreRead(buf, 12 + |qs|, m.All(), facts);
  }
}

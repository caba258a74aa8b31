/** The PTR query, and that the reader reads it back (section 5.4 of RFC 6762 for its class). */
module DnsQuery {
  import opened Net
  import opened Utf8
  import opened DnsName
  import opened DnsCursor
  import opened DnsMessage

  /** The offset of the first dot, or the length. */
  function FirstDot(s: Text): (i: nat)
    ensures i <= |s| && (i < |s| ==> s[i] == DOT)
  {
    if s == [] || s[0] == DOT then 0 else 1 + FirstDot(s[1..])
  }

  /** The pieces of `s` between dots, as `split('.')` yields them. */
  function Split(s: Text): seq<Text>
    decreases |s|
  {
    var i := FirstDot(s);
    if i == |s| then [s] else [s[..i]] + Split(s[i + 1..])
  }

  function NonEmpty(pieces: seq<Text>): seq<Text> {
    if pieces == [] then []
    else
      var n := |pieces| - 1;
      NonEmpty(pieces[..n]) + if pieces[n] == [] then [] else [pieces[n]]
  }

  /** A label as the query writes it; its length is cut to eight bits. */
  function Frame(text: Text): seq<Byte> {
    [|text| % 0x100] + text
  }

  function Frames(labels: seq<Text>): seq<Byte> {
    if labels == [] then [] else Frames(labels[..|labels| - 1]) + Frame(labels[|labels| - 1])
  }

  const QUERY_HEADER: seq<Byte> := [0, 0, 0, 0, 0, 1, 0, 0, 0, 0, 0, 0]
  const QUERY_TAIL: seq<Byte> := [0, 12, 0x80, 0x01]

  /** The query as a whole. */
  function Query(service: Text): seq<Byte> {
    QUERY_HEADER + Frames(NonEmpty(Split(service))) + [0] + QUERY_TAIL
  }

  method BuildQuery(service: Text) returns (m: seq<Byte>)
    ensures m == Query(service)
  {
    hide Split, NonEmpty, Frames;
    m := [0, 0, 0, 0] + EncodeU16(1) + [0, 0, 0, 0, 0, 0];
    assert m == QUERY_HEADER;
    var pieces := Split(service);
    NothingFramed();
    for i := 0 to |pieces|
      invariant m == QUERY_HEADER + Frames(NonEmpty(pieces[..i]))
    {
      PieceFramed(pieces, i);
      if pieces[i] == [] {
        continue;
      }
      m := m + [|pieces[i]| % 0x100] + pieces[i];
    }
    assert pieces[..|pieces|] == pieces;
    m := m + [0] + EncodeU16(12) + EncodeU16(0x8001);
  }

  lemma NothingFramed()
    ensures Frames(NonEmpty([])) == []
  {
  }

  /** The next piece adds its frame, and nothing if it is empty. */
  lemma PieceFramed(pieces: seq<Text>, i: nat)
    requires i < |pieces|
    ensures var before, p := Frames(NonEmpty(pieces[..i])), pieces[i];
            Frames(NonEmpty(pieces[..i + 1])) == if p == [] then before else before + [|p| % 0x100] + p
  {
    assert pieces[..i + 1][..i] == pieces[..i];
    var labels := NonEmpty(pieces[..i]);
    assert (labels + [pieces[i]])[..|labels|] == labels == labels + [];
  }

  // ---- Splitting ----

  lemma {:induction false} PiecesAreValid(s: Text)
    requires ValidUtf8(s)
    ensures forall p :: p in Split(s) ==> ValidUtf8(p)
    decreases |s|
  {
    hide ValidUtf8;
    var i := FirstDot(s);
    if i < |s| {
      assert s == s[..i] + [DOT] + s[i + 1..];
      ValidAroundAscii(s[..i], DOT, s[i + 1..]);
      PiecesAreValid(s[i + 1..]);
    }
  }

  lemma {:induction false} NonEmptyPieces(pieces: seq<Text>)
    ensures forall p :: p in NonEmpty(pieces) <==> p in pieces && p != []
  {
    if pieces != [] {
      var n := |pieces| - 1;
      NonEmptyPieces(pieces[..n]);
      assert pieces == pieces[..n] + [pieces[n]];
    }
  }

  lemma {:induction false} NothingDropped(pieces: seq<Text>)
    requires [] !in pieces
    ensures NonEmpty(pieces) == pieces
  {
    if pieces != [] {
      var n := |pieces| - 1;
      NothingDropped(pieces[..n]);
      assert pieces == pieces[..n] + [pieces[n]];
    }
  }

  lemma {:induction false} DottedFront(first: Text, rest: seq<Text>)
    requires rest != []
    ensures Dotted([first] + rest) == first + [DOT] + Dotted(rest)
  {
    var n := |rest| - 1;
    var all := [first] + rest;
    if n == 0 {
      assert all[..1] == [first];
    } else {
      DottedFront(first, rest[..n]);
      assert all[..|all| - 1] == [first] + rest[..n];
      assert Dotted(all) == Dotted([first] + rest[..n]) + [DOT] + rest[n];
    }
  }

  lemma DottedOne(text: Text)
    ensures Dotted([text]) == text
  {
  }

  /** Joining the pieces with dots gives the text back. */
  lemma {:induction false} SplitThenJoin(s: Text)
    ensures Split(s) != [] && Dotted(Split(s)) == s
    decreases |s|
  {
    hide Dotted, FirstDot;
    var i := FirstDot(s);
    if i == |s| {
      DottedOne(s);
    } else {
      SplitThenJoin(s[i + 1..]);
      DottedFront(s[..i], Split(s[i + 1..]));
      hide Split;
      assert s == s[..i] + [DOT] + s[i + 1..];
    }
  }

  lemma FrameOfGoodLabel(text: Text)
    requires GoodLabel(text)
    ensures Frame(text) == EncodeLabel(text)
  {
    hide ValidUtf8;
  }

  lemma {:induction false} FramesEncode(labels: seq<Text>)
    requires forall l :: l in labels ==> GoodLabel(l)
    ensures Frames(labels) == EncodeLabels(labels)
  {
    hide GoodLabel, Frame, EncodeLabel;
    if labels != [] {
      var n := |labels| - 1;
      var front := labels[..n];
      assert labels[n] in labels && forall l :: l in front ==> l in labels;
      FramesEncode(front);
      FrameOfGoodLabel(labels[n]);
      hide EncodeLabels;
      EncodeAppend(front, labels[n]);
      assert labels == front + [labels[n]];
    }
  }

  lemma {:induction false} EncodeAppend(labels: seq<Text>, text: Text)
    requires (forall l :: l in labels ==> GoodLabel(l)) && GoodLabel(text)
    ensures EncodeLabels(labels + [text]) == EncodeLabels(labels) + EncodeLabel(text)
  {
    hide GoodLabel;
    if labels == [] {
      assert ([] + [text])[1..] == [];
    } else {
      EncodeAppend(labels[1..], text);
      assert (labels + [text])[1..] == labels[1..] + [text];
    }
  }

  // ---- Reading the query back ----

  /** A service name whose pieces the reader can tell from pointers. */
  predicate Askable(service: Text) {
    ValidUtf8(service) && forall p :: p in Split(service) ==> |p| <= 191
  }

  lemma AskableLabels(service: Text)
    requires Askable(service)
    ensures forall l :: l in NonEmpty(Split(service)) ==> GoodLabel(l)
  {
    hide Split, NonEmpty;
    PiecesAreValid(service);
    NonEmptyPieces(Split(service));
  }

  /** The header of a standard query: id and flags 0, one question, no records. */
  predicate StandardQuery(m: seq<Byte>) {
    && |m| >= 12
    && m[0] == 0 && m[1] == 0 && m[2] == 0 && m[3] == 0
    && m[4] == 0 && m[5] == 1
    && m[6] == 0 && m[7] == 0 && m[8] == 0 && m[9] == 0 && m[10] == 0 && m[11] == 0
  }

  /** The question for a service in wire form. */
  function Question(labels: seq<Text>): WireMessage {
    WireMessage(0, 0, [WireQuestion(WireName(labels, None), 12, 0x8001)], [], [], [])
  }

  /** The query is the wire form of that message, with an all-zero id and flags. */
  lemma QueryIsWireForm(service: Text)
    requires Askable(service)
    ensures var m := Question(NonEmpty(Split(service)));
            m.Ok() && Query(service) == m.Encode() && StandardQuery(Query(service))
  {
    hide Split, NonEmpty, Frames, GoodLabel, EncodeLabels;
    var labels := NonEmpty(Split(service));
    AskableLabels(service);
    FramesEncode(labels);
    var m := Question(labels);
    assert m.Header() == QUERY_HEADER;
    assert EncodeU16(12) + EncodeU16(0x8001) == QUERY_TAIL;
    assert m.questions[1..] == [] && m.All() == [];
    assert EncodeQuestions(m.questions) == m.questions[0].Encode() + [];
    assert m.questions[0].Encode() == (EncodeLabels(labels) + [0]) + QUERY_TAIL;
    assert EncodeRecords(m.All()) == [];
  }

  lemma HeaderWords(m: seq<Byte>)
    requires StandardQuery(m)
    ensures |m| >= 12
    ensures U16At(m, 0) == U16At(m, 2) == 0 && U16At(m, 4) == 1
    ensures U16At(m, 6) == U16At(m, 8) == U16At(m, 10) == 0
  {
  }

  /** The name at offset 12 of a query reads back as the service name with its empty pieces dropped,
      exactly if at most 99 pieces remain; then the PTR type and class 0x8001 follow to the end, and
      the message parses as one question without records. Before the name stands the header of a
      standard query. */
  lemma QueryIsReadBack(service: Text)
    requires Askable(service)
    ensures var m, labels := Query(service), NonEmpty(Split(service));
            && StandardQuery(m) && U16At(m, 0) == U16At(m, 2) == 0 && U16At(m, 4) == 1
            && U16At(m, 6) == U16At(m, 8) == U16At(m, 10) == 0
            && NameAt(m, 12) == (if |labels| <= 99 then Some(Dotted(labels)) else None)
            && (|labels| <= 99 ==>
                  && EndOfName(m, 12) == |m| - 4
                  && U16At(m, |m| - 4) == 12 && U16At(m, |m| - 2) == 0x8001
                  && Message(m) == Parsed([], true))
  {
    hide Split, NonEmpty, NameAt, EndOfName, EncodeLabels, Frames, GoodLabel, StandardQuery, Question;
    var m, labels := Query(service), NonEmpty(Split(service));
    QueryIsWireForm(service);
    HeaderWords(m);
    AskableLabels(service);
    FramesEncode(labels);
    var name := EncodeLabels(labels) + [0];
    assert m == QUERY_HEADER + (name + QUERY_TAIL);
    assert Stands(m, 0, QUERY_HEADER + (name + QUERY_TAIL));
    StandsApart(m, 0, QUERY_HEADER, name + QUERY_TAIL);
    StandsApart(m, 12, name, QUERY_TAIL);
    PlainNameByText(m, 12, labels);
    if |labels| <= 99 {
      QueryFrame(m, |m| - 4);
    }
  }

  lemma PlainNameByText(buf: seq<Byte>, o: nat, labels: seq<Text>)
    requires forall l :: l in labels ==> GoodLabel(l)
    requires Stands(buf, o, EncodeLabels(labels) + [0])
    ensures NameAt(buf, o) == if |labels| < NAME_BUDGET then Some(Dotted(labels)) else None
    ensures |labels| < NAME_BUDGET ==> EndOfName(buf, o) == o + |EncodeLabels(labels)| + 1
  {
    hide Decode, CursorAfter, EncodeLabels, GoodLabel;
    PlainIsDecoded(buf, o, labels, NAME_BUDGET);
    NameByBudget(buf, o, NAME_BUDGET);
  }

  lemma QueryFrame(m: seq<Byte>, end: nat)
    requires Stands(m, 0, QUERY_HEADER) && Stands(m, end, QUERY_TAIL) && end + 4 == |m|
    requires NameAt(m, 12).Some? && EndOfName(m, 12) == end
    ensures U16At(m, end) == 12 && U16At(m, end + 2) == 0x8001
    ensures Message(m) == Parsed([], true)
  {
    hide NameAt, EndOfName, RecordAt;
    assert forall i :: 0 <= i < 12 ==> m[i] == m[0..12][i];
    assert m[end] == m[end..end + 4][0] && m[end + 1] == m[end..end + 4][1];
    assert m[end + 2] == m[end..end + 4][2] && m[end + 3] == m[end..end + 4][3];
    assert U16At(m, 4) == 1 && RecordCount(m) == 0;
    assert Questions(m, 12, 1) == Questions(m, |m|, 0);
  }

  /** Without empty pieces the name read back is the service name itself. */
  lemma ProperNameIsReadBack(service: Text)
    requires Askable(service) && [] !in Split(service) && |Split(service)| <= 99
    ensures NameAt(Query(service), 12) == Some(service)
  {
    hide Split, NonEmpty, NameAt, Query, Askable;
    NothingDropped(Split(service));
    SplitThenJoin(service);
    QueryIsReadBack(service);
  }

  // ---- The queries that are sent ----

  lemma {:induction false} DotlessPrefix(a: Text, rest: Text)
    requires DOT !in a
    ensures FirstDot(a) == FirstDot(a + [DOT] + rest) == |a|
  {
    if a != [] {
      DotlessPrefix(a[1..], rest);
      assert (a + [DOT] + rest)[1..] == a[1..] + [DOT] + rest;
    }
  }

  lemma SplitAtDot(a: Text, rest: Text)
    requires DOT !in a
    ensures Split(a) == [a] && Split(a + [DOT] + rest) == [a] + Split(rest)
  {
    DotlessPrefix(a, rest);
    assert (a + [DOT] + rest)[..|a|] == a && (a + [DOT] + rest)[|a| + 1..] == rest;
  }

  /** A piece of a service type: ASCII, not empty, no dot, of label length. */
  predicate PlainPiece(p: Text) {
    1 <= |p| <= 63 && forall i :: 0 <= i < |p| ==> p[i] < 0x80 && p[i] != DOT
  }

  function ThreeLabels(a: Text, b: Text, c: Text): Text {
    a + [DOT] + (b + [DOT] + c)
  }

  lemma ThreeLabelsSplit(a: Text, b: Text, c: Text)
    requires PlainPiece(a) && PlainPiece(b) && PlainPiece(c)
    ensures var s := ThreeLabels(a, b, c); Askable(s) && Split(s) == [a, b, c]
  {
    hide Split, FirstDot;
    SplitAtDot(c, []);
    SplitAtDot(b, c);
    SplitAtDot(a, b + [DOT] + c);
    AsciiIsValid(ThreeLabels(a, b, c));
  }

  function FirstLabel(i: nat): string {
    match i case 0 => "_adb-tls-connect" case 1 => "_adb-tls-pairing" case _ => "_adb"
  }

  lemma PlainPieces(i: nat)
    ensures PlainPiece(Ascii(FirstLabel(i))) && PlainPiece(Ascii("_tcp")) && PlainPiece(Ascii("local"))
  {
  }

  /** A service type is its own label, then two common ones. */
  lemma ServiceTypeLabels(i: nat)
    requires i < |ADB_SERVICES|
    ensures ADB_SERVICES[i].0 == ThreeLabels(Ascii(FirstLabel(i)), Ascii("_tcp"), Ascii("local"))
  {
    AsciiLabels(FirstLabel(i), "_tcp", "local");
    assert FirstLabel(0) + "." + ("_tcp" + "." + "local") == "_adb-tls-connect._tcp.local";
    assert FirstLabel(1) + "." + ("_tcp" + "." + "local") == "_adb-tls-pairing._tcp.local";
    assert FirstLabel(2) + "." + ("_tcp" + "." + "local") == "_adb._tcp.local";
  }

  lemma AsciiLabels(x: string, y: string, z: string)
    ensures Ascii(x + "." + (y + "." + z)) == ThreeLabels(Ascii(x), Ascii(y), Ascii(z))
  {
  }

  /** No service type is taken for an earlier one. */
  lemma ServiceTypesDiffer()
    ensures !EqIgnoreCase(ADB_SERVICES[1].0, ADB_SERVICES[0].0)
    ensures !EqIgnoreCase(ADB_SERVICES[2].0, ADB_SERVICES[0].0) && !EqIgnoreCase(ADB_SERVICES[2].0, ADB_SERVICES[1].0)
  {
    assert Lower(ADB_SERVICES[1].0[9]) != Lower(ADB_SERVICES[0].0[9]);
  }

  lemma ServiceTypesAreRecognised(i: nat)
    requires i < |ADB_SERVICES|
    ensures ServiceOf(ADB_SERVICES[i].0) == Some(ADB_SERVICES[i].1)
  {
    ServiceTypesDiffer();
    hide EqIgnoreCase, Ascii;
    var name := ADB_SERVICES[i].0;
    assert EqIgnoreCase(name, name) by { SameIgnoringCase(name); }
    assert ADB_SERVICES[1..][0] == ADB_SERVICES[1] && ADB_SERVICES[1..][1..][0] == ADB_SERVICES[2];
  }

  lemma SameIgnoringCase(name: Text)
    ensures EqIgnoreCase(name, name)
  {
  }

  /** Names are recognised letter by letter, upper and lower case alike. */
  lemma CaseIsIgnored(a: Text, b: Text)
    ensures EqIgnoreCase(a, b) <==>
              |a| == |b| && forall i :: 0 <= i < |a| ==>
                || a[i] == b[i]
                || (65 <= a[i] <= 90 && b[i] == a[i] + 32)
                || (65 <= b[i] <= 90 && a[i] == b[i] + 32)
  {
  }

  /** What each service type stands for. */
  lemma KindsByName()
    ensures ServiceOf(Ascii("_adb-tls-connect._tcp.local")) == Some(Connect)
    ensures ServiceOf(Ascii("_adb-tls-pairing._tcp.local")) == Some(Pairing)
    ensures ServiceOf(Ascii("_adb._tcp.local")) == Some(Legacy)
  {
    hide ServiceOf, Ascii;
    ServiceTypesAreRecognised(0);
    ServiceTypesAreRecognised(1);
    ServiceTypesAreRecognised(2);
  }

  const LEGACY_LABELS: seq<Byte> := [
    4, 0x5F, 0x61, 0x64, 0x62,
    4, 0x5F, 0x74, 0x63, 0x70,
    5, 0x6C, 0x6F, 0x63, 0x61, 0x6C]

  /** The third query, byte by byte. */
  lemma LegacyQueryBytes()
    ensures Query(Ascii("_adb._tcp.local"))
         == [0, 0, 0, 0, 0, 1, 0, 0, 0, 0, 0, 0] + LEGACY_LABELS + [0, 0, 12, 0x80, 1]
  {
    hide Split, FirstDot, ThreeLabels, Frames, NonEmpty, Ascii, FirstLabel;
    var a, b, c := Ascii(FirstLabel(2)), Ascii("_tcp"), Ascii("local");
    PlainPieces(2);
    ServiceTypeLabels(2);
    ThreeLabelsSplit(a, b, c);
    NothingDropped([a, b, c]);
    LegacyFrames();
  }

  lemma LegacyFrames()
    ensures Frames([Ascii(FirstLabel(2)), Ascii("_tcp"), Ascii("local")]) == LEGACY_LABELS
  {
    hide Frames, Ascii, FirstLabel;
    var a, b, c := Ascii(FirstLabel(2)), Ascii("_tcp"), Ascii("local");
    ThreeFrames(a, b, c);
    LegacyLetters();
  }

  lemma LegacyLetters()
    ensures Ascii(FirstLabel(2)) == [0x5F, 0x61, 0x64, 0x62]
    ensures Ascii("_tcp") == [0x5F, 0x74, 0x63, 0x70] && Ascii("local") == [0x6C, 0x6F, 0x63, 0x61, 0x6C]
  {
  }

  lemma ThreeFrames(a: Text, b: Text, c: Text)
    ensures Frames([a, b, c]) == Frame(a) + Frame(b) + Frame(c)
  {
    NoFrames();
    hide Frames;
    OneMoreFrame([], a);
    OneMoreFrame([a], b);
    OneMoreFrame([a, b], c);
    assert [] + [a] == [a] && [a] + [b] == [a, b] && [a, b] + [c] == [a, b, c];
    assert [] + Frame(a) == Frame(a);
  }

  lemma NoFrames()
    ensures Frames([]) == []
  {
  }

  lemma OneMoreFrame(labels: seq<Text>, text: Text)
    ensures Frames(labels + [text]) == Frames(labels) + Frame(text)
  {
    assert (labels + [text])[..|labels|] == labels;
  }

  /** Each query that discovery sends asks for its own service type: it is a standard query of one
      question that reads back with that name, and the name is the one by which answers to it are
      recognised. */
  lemma SentQueriesReadBack(i: nat)
    requires i < |ADB_SERVICES|
    ensures var (name, kind) := ADB_SERVICES[i];
            && StandardQuery(Query(name))
            && NameAt(Query(name), 12) == Some(name) && Message(Query(name)) == Parsed([], true)
            && ServiceOf(name) == Some(kind) && kind == [Connect, Pairing, Legacy][i]
  {
    hide NameAt, Query, Message, Ascii, ServiceOf, StandardQuery;
    ServiceTypesAreRecognised(i);
    NamedQueryReadsBack(i);
  }

  lemma NamedQueryReadsBack(i: nat)
    requires i < |ADB_SERVICES|
    ensures var name := ADB_SERVICES[i].0;
            StandardQuery(Query(name)) && NameAt(Query(name), 12) == Some(name)
            && Message(Query(name)) == Parsed([], true)
  {
    hide Split, NameAt, Query, Message, Ascii, ThreeLabels, FirstLabel, NonEmpty, StandardQuery;
    PlainPieces(i);
    ServiceTypeLabels(i);
    hide ADB_SERVICES;
    ThreeLabelsSplit(Ascii(FirstLabel(i)), Ascii("_tcp"), Ascii("local"));
    ProperNameIsReadBack(ADB_SERVICES[i].0);
    QueryIsReadBack(ADB_SERVICES[i].0);
  }
}

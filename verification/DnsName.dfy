/** Domain names in a message buffer: label sequences with compression pointers (sections 3.1 and
    4.1.4 of RFC 1035), as `read_name` follows them. */
module DnsName {
  import opened Net
  import opened Bits
  import opened Sequences
  import opened Utf8

  type Text = seq<Byte>

  const NAME_BUDGET: nat := 100
  const DOT: Byte := 0x2E

  /** What the reader finds at an offset. */
  datatype Node =
    | End
    | Jump(target: nat)
    | Label(text: Text, after: nat)
    | Bad

  predicate IsPointer(len: Byte) {
    And(len, 0xC0) == 0xC0
  }

  /** Only the top bit pattern 11 marks a pointer; a length may be anything from 1 to 191. */
  function NodeAt(buf: seq<Byte>, p: nat): (n: Node)
    ensures n.Label? ==> 0 < |n.text| && p < n.after <= |buf|
    ensures n.End? ==> p < |buf|
    ensures n.Jump? ==> p + 1 < |buf|
  {
    if p >= |buf| then Bad
    else
      var len := buf[p];
      if len == 0 then End
      else if IsPointer(len) then
        if p + 1 >= |buf| then Bad else Jump(And(len, 0x3F) * 0x100 + buf[p + 1])
      else if p + 1 + len > |buf| then Bad
      else if ValidUtf8(buf[p + 1..p + 1 + len]) then Label(buf[p + 1..p + 1 + len], p + 1 + len)
      else Bad
  }

  lemma PointerBytes(len: Byte)
    ensures IsPointer(len) <==> len >= 192
    ensures And(len, 0x3F) == len % 64
  {
    assert Pow2(6) == 64 && Pow2(8) == 256;
    AndHighMask(len, 6, 8);
    AndLowMask(len, 6);
  }

  /** What stands at an offset, in numbers. */
  lemma NodeByNumbers(buf: seq<Byte>, p: nat)
    requires p < |buf|
    ensures NodeAt(buf, p)
         == if buf[p] == 0 then End
            else if buf[p] >= 192 then
              if p + 1 < |buf| then Jump((buf[p] as int - 192) * 256 + buf[p + 1]) else Bad
            else if p + 1 + buf[p] <= |buf| && ValidUtf8(buf[p + 1..p + 1 + buf[p]])
            then Label(buf[p + 1..p + 1 + buf[p]], p + 1 + buf[p])
            else Bad
  {
    hide And, ValidUtf8, IsPointer;
    PointerBytes(buf[p]);
  }

  // ---- What a name means, without any budget ----

  /** The reader moves on from offset `p` to offset `q`. */
  predicate Follows(buf: seq<Byte>, p: nat, q: nat) {
    var n := NodeAt(buf, p);
    (n.Jump? && q == n.target) || (n.Label? && q == n.after)
  }

  /** The offsets visited from the first one to a terminator. */
  ghost predicate Walk(buf: seq<Byte>, path: seq<nat>) {
    && path != []
    && NodeAt(buf, path[|path| - 1]).End?
    && forall i :: 0 <= i < |path| - 1 ==> Follows(buf, path[i], path[i + 1])
  }

  function LabelsAlong(buf: seq<Byte>, path: seq<nat>): seq<Text> {
    if path == [] then []
    else
      var n := NodeAt(buf, path[0]);
      if n.Label? then [n.text] + LabelsAlong(buf, path[1..]) else LabelsAlong(buf, path[1..])
  }

  /** From offset `p` a walk of at most `steps` offsets spells the labels. */
  ghost predicate Spells(buf: seq<Byte>, p: nat, steps: nat, labels: seq<Text>) {
    exists path :: Walk(buf, path) && path[0] == p && |path| <= steps && labels == LabelsAlong(buf, path)
  }

  // ---- What the reader computes ----

  function Prepend(front: seq<Text>, rest: Option<seq<Text>>): Option<seq<Text>> {
    match rest
    case Some(labels) => Some(front + labels)
    case None => None
  }

  function Decode(buf: seq<Byte>, p: nat, budget: nat): Option<seq<Text>>
    decreases budget
  {
    if budget == 0 then None
    else
      match NodeAt(buf, p)
      case Bad => None
      case End => Some([])
      case Jump(target) => Decode(buf, target, budget - 1)
      case Label(text, after) => Prepend([text], Decode(buf, after, budget - 1))
  }

  /** Where the cursor is left: behind the terminator or the first pointer, else where it was. */
  function CursorAfter(buf: seq<Byte>, p: nat, budget: nat, start: nat): (q: nat)
    requires start <= p
    ensures start <= q && (q != start ==> q <= |buf|)
    decreases budget
  {
    if budget == 0 then start
    else
      match NodeAt(buf, p)
      case Bad => start
      case End => p + 1
      case Jump(_) => p + 2
      case Label(_, after) => CursorAfter(buf, after, budget - 1, start)
  }

  /** The dot-separated text of a label sequence. */
  function Dotted(labels: seq<Text>): Text {
    if labels == [] then []
    else if |labels| == 1 then labels[0]
    else Dotted(labels[..|labels| - 1]) + [DOT] + labels[|labels| - 1]
  }

  /** The name read at `p`. */
  function NameAt(buf: seq<Byte>, p: nat): Option<Text> {
    match Decode(buf, p, NAME_BUDGET)
    case Some(labels) => Some(Dotted(labels))
    case None => None
  }

  function EndOfName(buf: seq<Byte>, p: nat): nat {
    CursorAfter(buf, p, NAME_BUDGET, p)
  }

  /** A successful read always consumes at least one byte and stays in the buffer. */
  lemma {:induction false} DecodeAdvances(buf: seq<Byte>, p: nat, budget: nat, start: nat)
    requires start <= p && Decode(buf, p, budget).Some?
    ensures start < CursorAfter(buf, p, budget, start) <= |buf|
    decreases budget
  {
    match NodeAt(buf, p)
    case Label(_, after) => DecodeAdvances(buf, after, budget - 1, start);
    case _ =>
  }

  // ---- The reader refines the relation ----

  lemma {:induction false} DecodedIsSpelled(buf: seq<Byte>, p: nat, budget: nat) returns (path: seq<nat>)
    requires Decode(buf, p, budget).Some?
    ensures Walk(buf, path) && path[0] == p && |path| <= budget
    ensures Decode(buf, p, budget) == Some(LabelsAlong(buf, path))
    decreases budget
  {
    hide ValidUtf8;
    match NodeAt(buf, p)
    case End =>
      path := [p];
      assert LabelsAlong(buf, path[1..]) == [];
    case Jump(target) =>
      var rest := DecodedIsSpelled(buf, target, budget - 1);
      path := [p] + rest;
      assert path[1..] == rest;
    case Label(_, after) =>
      var rest := DecodedIsSpelled(buf, after, budget - 1);
      path := [p] + rest;
      assert path[1..] == rest;
  }

  lemma {:induction false} SpelledIsDecoded(buf: seq<Byte>, path: seq<nat>, budget: nat)
    requires Walk(buf, path)
    ensures Decode(buf, path[0], budget)
         == if |path| <= budget then Some(LabelsAlong(buf, path)) else None
    decreases budget
  {
    hide ValidUtf8;
    if |path| > 1 && budget > 0 {
      assert Follows(buf, path[0], path[1]);
      assert forall i :: 0 <= i < |path| - 2 ==> Follows(buf, path[1..][i], path[1..][i + 1]);
      SpelledIsDecoded(buf, path[1..], budget - 1);
    }
  }

  lemma {:induction false} WalksAgree(buf: seq<Byte>, a: seq<nat>, b: seq<nat>)
    requires Walk(buf, a) && Walk(buf, b) && a[0] == b[0]
    ensures a == b
  {
    hide ValidUtf8;
    if |a| > 1 {
      assert Follows(buf, a[0], a[1]);
    }
    if |b| > 1 {
      assert Follows(buf, b[0], b[1]);
    }
    if |a| > 1 && |b| > 1 {
      assert forall i :: 0 <= i < |a| - 2 ==> Follows(buf, a[1..][i], a[1..][i + 1]);
      assert forall i :: 0 <= i < |b| - 2 ==> Follows(buf, b[1..][i], b[1..][i + 1]);
      WalksAgree(buf, a[1..], b[1..]);
      assert a == [a[0]] + a[1..] && b == [b[0]] + b[1..];
    }
  }

  lemma WalkSuffix(buf: seq<Byte>, path: seq<nat>, i: nat)
    requires Walk(buf, path) && i < |path|
    ensures Walk(buf, path[i..])
  {
    assert forall k :: 0 <= k < |path| - i - 1 ==> Follows(buf, path[i..][k], path[i..][k + 1]);
  }

  /** A walk never returns to an offset. */
  lemma WalksAreSimple(buf: seq<Byte>, path: seq<nat>)
    requires Walk(buf, path)
    ensures Distinct(path)
  {
    forall i, j | 0 <= i < j < |path| ensures path[i] != path[j] {
      if path[i] == path[j] {
        WalkSuffix(buf, path, i);
        WalkSuffix(buf, path, j);
        WalksAgree(buf, path[i..], path[j..]);
      }
    }
  }

  /** `read_name` yields a text exactly if a walk of at most 100 offsets spells it. */
  lemma NameReadIffSpelled(buf: seq<Byte>, p: nat, name: Text)
    ensures NameAt(buf, p) == Some(name) <==>
              exists labels :: Spells(buf, p, NAME_BUDGET, labels) && name == Dotted(labels)
  {
    hide ValidUtf8, Decode, LabelsAlong;
    if NameAt(buf, p) == Some(name) {
      var path := DecodedIsSpelled(buf, p, NAME_BUDGET);
      assert Spells(buf, p, NAME_BUDGET, LabelsAlong(buf, path));
    }
    forall labels | Spells(buf, p, NAME_BUDGET, labels) ensures NameAt(buf, p) == Some(Dotted(labels)) {
      var path :| Walk(buf, path) && path[0] == p && |path| <= NAME_BUDGET && labels == LabelsAlong(buf, path);
      SpelledIsDecoded(buf, path, NAME_BUDGET);
    }
  }

  /** A chain of offsets that comes back to one of its own is rejected, whatever the budget. */
  lemma CyclesAreRejected(buf: seq<Byte>, chain: seq<nat>, budget: nat)
    requires |chain| > 1 && !Distinct(chain)
    requires forall i :: 0 <= i < |chain| - 1 ==> Follows(buf, chain[i], chain[i + 1])
    ensures Decode(buf, chain[0], budget) == None
  {
    if Decode(buf, chain[0], budget).Some? {
      var path := DecodedIsSpelled(buf, chain[0], budget);
      ChainWithinWalk(buf, chain, path);
      WalksAreSimple(buf, path);
    }
  }

  lemma {:induction false} ChainWithinWalk(buf: seq<Byte>, chain: seq<nat>, path: seq<nat>)
    requires chain != [] && Walk(buf, path) && chain[0] == path[0]
    requires forall i :: 0 <= i < |chain| - 1 ==> Follows(buf, chain[i], chain[i + 1])
    ensures chain <= path
  {
    if |chain| > 1 {
      assert Follows(buf, chain[0], chain[1]);
      assert |path| > 1 && Follows(buf, path[0], path[1]);
      assert forall i :: 0 <= i < |chain| - 2 ==> Follows(buf, chain[1..][i], chain[1..][i + 1]);
      WalkSuffix(buf, path, 1);
      ChainWithinWalk(buf, chain[1..], path[1..]);
    }
  }

  // ---- Wire form ----

  /** A label the wire form can carry and the reader takes for a label. */
  predicate GoodLabel(text: Text) {
    1 <= |text| <= 191 && ValidUtf8(text)
  }

  function EncodeLabel(text: Text): seq<Byte>
    requires GoodLabel(text)
  {
    [|text|] + text
  }

  function EncodeLabels(labels: seq<Text>): seq<Byte>
    requires forall l :: l in labels ==> GoodLabel(l)
  {
    if labels == [] then [] else EncodeLabel(labels[0]) + EncodeLabels(labels[1..])
  }

  /** `bytes` stands in the buffer at offset `o`. */
  predicate Stands(buf: seq<Byte>, o: nat, bytes: seq<Byte>) {
    o + |bytes| <= |buf| && buf[o..o + |bytes|] == bytes
  }

  lemma StandsApart(buf: seq<Byte>, o: nat, a: seq<Byte>, b: seq<Byte>)
    requires Stands(buf, o, a + b)
    ensures Stands(buf, o, a) && Stands(buf, o + |a|, b)
  {
    var whole := buf[o..o + |a + b|];
    assert whole[..|a|] == a && whole[|a|..] == b;
  }

  lemma LabelIsRead(buf: seq<Byte>, o: nat, text: Text)
    requires GoodLabel(text) && Stands(buf, o, EncodeLabel(text))
    ensures NodeAt(buf, o) == Label(text, o + 1 + |text|)
  {
    StandsApart(buf, o, [|text|], text);
    assert buf[o..o + 1][0] == |text|;
    PointerBytes(buf[o]);
  }

  /** The reader meets exactly these labels from `o` to `end`. */
  predicate Meets(buf: seq<Byte>, o: nat, labels: seq<Text>, end: nat)
    decreases |labels|
  {
    if labels == [] then o == end
    else
      var after := o + 1 + |labels[0]|;
      NodeAt(buf, o) == Label(labels[0], after) && Meets(buf, after, labels[1..], end)
  }

  lemma {:induction false} WrittenLabelsAreMet(buf: seq<Byte>, o: nat, labels: seq<Text>)
    requires forall l :: l in labels ==> GoodLabel(l)
    requires Stands(buf, o, EncodeLabels(labels))
    ensures Meets(buf, o, labels, o + |EncodeLabels(labels)|)
    decreases |labels|
  {
    hide NodeAt, ValidUtf8, GoodLabel;
    if labels != [] {
      var tail := labels[1..];
      assert forall l :: l in tail ==> l in labels;
      StandsApart(buf, o, EncodeLabel(labels[0]), EncodeLabels(tail));
      LabelIsRead(buf, o, labels[0]);
      WrittenLabelsAreMet(buf, o + 1 + |labels[0]|, tail);
    }
  }

  /** Labels are read in order, each costing one step; the rest decides what follows. */
  lemma {:induction false} LabelsAreRead(buf: seq<Byte>, o: nat, labels: seq<Text>, end: nat, budget: nat)
    requires Meets(buf, o, labels, end)
    ensures Decode(buf, o, budget)
         == if |labels| < budget then Prepend(labels, Decode(buf, end, budget - |labels|)) else None
    decreases |labels|
  {
    hide NodeAt;
    if labels == [] {
      PrependNothing(Decode(buf, o, budget));
    } else if budget > 0 {
      LabelsAreRead(buf, o + 1 + |labels[0]|, labels[1..], end, budget - 1);
      if |labels| < budget {
        PrependTwice(labels[0], labels[1..], Decode(buf, end, budget - |labels|));
        assert labels == [labels[0]] + labels[1..];
      }
    }
  }

  lemma {:induction false} LabelsArePassed(
    buf: seq<Byte>, o: nat, labels: seq<Text>, end: nat, budget: nat, start: nat)
    requires Meets(buf, o, labels, end) && start <= o <= end && |labels| < budget
    ensures CursorAfter(buf, o, budget, start) == CursorAfter(buf, end, budget - |labels|, start)
    decreases |labels|
  {
    hide NodeAt;
    if labels != [] {
      MeetsForward(buf, o + 1 + |labels[0]|, labels[1..], end);
      LabelsArePassed(buf, o + 1 + |labels[0]|, labels[1..], end, budget - 1, start);
    }
  }

  lemma {:induction false} MeetsForward(buf: seq<Byte>, o: nat, labels: seq<Text>, end: nat)
    requires Meets(buf, o, labels, end)
    ensures o <= end
    decreases |labels|
  {
    hide NodeAt;
    if labels != [] {
      MeetsForward(buf, o + 1 + |labels[0]|, labels[1..], end);
    }
  }

  lemma PrependNothing(rest: Option<seq<Text>>)
    ensures Prepend([], rest) == rest
  {
    if rest.Some? {
      assert [] + rest.value == rest.value;
    }
  }

  lemma PrependTwice(text: Text, front: seq<Text>, rest: Option<seq<Text>>)
    ensures Prepend([text], Prepend(front, rest)) == Prepend([text] + front, rest)
  {
    if rest.Some? {
      assert [text] + (front + rest.value) == [text] + front + rest.value;
    }
  }

  function PointerTo(p: nat): seq<Byte>
    requires p < 0x4000
  {
    [192 + p / 0x100, p % 0x100]
  }

  lemma PointerIsFollowed(buf: seq<Byte>, o: nat, p: nat)
    requires p < 0x4000 && Stands(buf, o, PointerTo(p))
    ensures NodeAt(buf, o) == Jump(p)
  {
    hide And, IsPointer;
    PointerStands(buf, o, p);
    PointerBytes(buf[o]);
    SplitOffset(p);
  }

  lemma PointerStands(buf: seq<Byte>, o: nat, p: nat)
    requires p < 0x4000 && Stands(buf, o, PointerTo(p))
    ensures o + 1 < |buf| && buf[o] == 192 + p / 0x100 && buf[o + 1] == p % 0x100
  {
    var b := buf[o..o + 2];
    assert buf[o] == b[0] && buf[o + 1] == b[1];
  }

  lemma SplitOffset(p: nat)
    requires p < 0x4000
    ensures 192 <= 192 + p / 0x100 < 256 && (192 + p / 0x100) % 64 * 0x100 + p % 0x100 == p
  {
  }

  /** Compression preserves meaning, for every budget: labels followed by a pointer to a spelled
      name read as the labels followed by that name, exactly if all the steps fit the budget; and
      the cursor ends behind the pointer whatever it points to. */
  lemma CompressionPreservesMeaning(buf: seq<Byte>, o: nat, labels: seq<Text>, p: nat, budget: nat)
    requires forall l :: l in labels ==> GoodLabel(l)
    requires p < 0x4000 && Stands(buf, o, EncodeLabels(labels) + PointerTo(p))
    ensures |labels| < budget ==> CursorAfter(buf, o, budget, o) == o + |EncodeLabels(labels)| + 2
    ensures forall path :: Walk(buf, path) && path[0] == p ==>
              Decode(buf, o, budget)
              == if |labels| + 1 + |path| <= budget then Some(labels + LabelsAlong(buf, path)) else None
    ensures (forall path :: !(Walk(buf, path) && path[0] == p)) ==> Decode(buf, o, budget) == None
  {
    hide ValidUtf8, Decode, LabelsAlong, CursorAfter;
    CompressedIsDecoded(buf, o, labels, p, budget);
    if |labels| < budget {
      var left := budget - |labels| - 1;
      forall path | Walk(buf, path) && path[0] == p
        ensures Decode(buf, p, left) == if |path| <= left then Some(LabelsAlong(buf, path)) else None
      {
        SpelledIsDecoded(buf, path, left);
      }
      if Decode(buf, p, left).Some? {
        var _ := DecodedIsSpelled(buf, p, left);
      }
    }
  }

  lemma CompressedIsDecoded(buf: seq<Byte>, o: nat, labels: seq<Text>, p: nat, budget: nat)
    requires forall l :: l in labels ==> GoodLabel(l)
    requires p < 0x4000 && Stands(buf, o, EncodeLabels(labels) + PointerTo(p))
    ensures |labels| < budget ==> CursorAfter(buf, o, budget, o) == o + |EncodeLabels(labels)| + 2
    ensures Decode(buf, o, budget)
         == if |labels| < budget then Prepend(labels, Decode(buf, p, budget - |labels| - 1)) else None
  {
    hide ValidUtf8;
    var end := o + |EncodeLabels(labels)|;
    StandsApart(buf, o, EncodeLabels(labels), PointerTo(p));
    PointerIsFollowed(buf, end, p);
    WrittenLabelsAreMet(buf, o, labels);
    LabelsAreRead(buf, o, labels, end, budget);
    if |labels| < budget {
      LabelsArePassed(buf, o, labels, end, budget, o);
    }
  }

  lemma TerminatorIsRead(buf: seq<Byte>, o: nat)
    requires Stands(buf, o, [0])
    ensures NodeAt(buf, o) == End
  {
    var tail := buf[o..o + |[0]|];
    assert tail == [0] && buf[o] == tail[0];
  }

  /** A terminated label sequence is read back whole if it has fewer labels than the budget. */
  lemma PlainIsDecoded(buf: seq<Byte>, o: nat, labels: seq<Text>, budget: nat)
    requires forall l :: l in labels ==> GoodLabel(l)
    requires Stands(buf, o, EncodeLabels(labels) + [0])
    ensures Decode(buf, o, budget) == if |labels| < budget then Some(labels) else None
    ensures |labels| < budget ==> CursorAfter(buf, o, budget, o) == o + |EncodeLabels(labels)| + 1
  {
    hide ValidUtf8;
    var end := o + |EncodeLabels(labels)|;
    StandsApart(buf, o, EncodeLabels(labels), [0]);
    TerminatorIsRead(buf, end);
    WrittenLabelsAreMet(buf, o, labels);
    LabelsAreRead(buf, o, labels, end, budget);
    if |labels| < budget {
      LabelsArePassed(buf, o, labels, end, budget, o);
      assert labels + [] == labels;
    }
  }
}

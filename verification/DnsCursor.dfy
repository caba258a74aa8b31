/** The reading cursor over one datagram. */
module DnsCursor {
  import opened Net
  import opened Bits
  import opened Utf8
  import opened DnsName

  function U16At(buf: seq<Byte>, p: nat): U16
    requires p + 2 <= |buf|
  {
    (buf[p] as nat) * 0x100 + buf[p + 1]
  }

  class Cursor {
    const buf: seq<Byte>
    var pos: nat

    constructor (buf: seq<Byte>, pos: nat)
      ensures this.buf == buf && this.pos == pos
    {
      this.buf, this.pos := buf, pos;
    }

    method Slice(n: nat) returns (s: Option<seq<Byte>>)
      modifies this
      ensures old(pos) + n <= |buf| ==> s == Some(buf[old(pos)..old(pos) + n]) && pos == old(pos) + n
      ensures old(pos) + n > |buf| ==> s == None && pos == old(pos)
    {
      if pos + n > |buf| {
        return None;
      }
      s := Some(buf[pos..pos + n]);
      pos := pos + n;
    }

    method ReadU16() returns (v: Option<U16>)
      modifies this
      ensures old(pos) + 2 <= |buf| ==> v == Some(U16At(buf, old(pos))) && pos == old(pos) + 2
      ensures old(pos) + 2 > |buf| ==> v == None && pos == old(pos)
    {
      var s := Slice(2);
      match s
      case None => v := None;
      case Some(b) => v := Some((b[0] as nat) * 0x100 + b[1]);
    }

    method Skip(n: nat) returns (ok: bool)
      modifies this
      ensures ok <==> old(pos) + n <= |buf|
      ensures pos == if ok then old(pos) + n else old(pos)
    {
      if pos + n > |buf| {
        return false;
      }
      pos := pos + n;
      ok := true;
    }

    /** Read a name, following pointers; the cursor goes behind the name as written here. It may
        move and still yield nothing. */
    method ReadName() returns (name: Option<Text>)
      modifies this
      ensures name == NameAt(buf, old(pos))
      ensures pos == EndOfName(buf, old(pos))
    {
      hide ValidUtf8, IsPointer, And, NameAt, EndOfName, Reading;
      var out: Text := [];
      var jumped := false;
      var p: nat := pos;
      var budget: nat := NAME_BUDGET;
      ghost var labels: seq<Text> := [];
      ReadingStarts(buf, pos);
      while true
        invariant Reading(buf, old(pos), p, budget, labels, out, jumped, pos)
        decreases budget
      {
        if budget == 0 || p >= |buf| {
          ReadingFails(buf, old(pos), p, budget, labels, out, jumped, pos);
          return None;
        }
        var len: nat := buf[p];
        if len == 0 {
          ReadingEnds(buf, old(pos), p, budget, labels, out, jumped, pos);
          if !jumped {
            pos := p + 1;
          }
          return Some(out);
        }
        if IsPointer(len) {
          if p + 1 >= |buf| {
            ReadingFails(buf, old(pos), p, budget, labels, out, jumped, pos);
            return None;
          }
          var target: nat := And(len, 0x3F) * 0x100 + buf[p + 1];
          ReadingJumps(buf, old(pos), p, budget, labels, out, jumped, pos);
          if !jumped {
            pos := p + 2;
            jumped := true;
          }
          p, budget := target, budget - 1;
          continue;
        }
        if p + 1 + len > |buf| {
          ReadingFails(buf, old(pos), p, budget, labels, out, jumped, pos);
          return None;
        }
        var text := buf[p + 1..p + 1 + len];
        if !ValidUtf8(text) {
          ReadingFails(buf, old(pos), p, budget, labels, out, jumped, pos);
          return None;
        }
        ReadingLabel(buf, old(pos), p, budget, labels, out, jumped, pos);
        if out != [] {
          out := out + [DOT];
        }
        out := out + text;
        labels := labels + [text];
        p, budget := p + 1 + len, budget - 1;
      }
    }
  }

  // ---- The reading loop ----

  /** Between iterations: the labels read so far, then whatever is read from `p` on, make up the
      name; and until the first jump the cursor has not moved. */
  ghost predicate Reading(
    buf: seq<Byte>, start: nat, p: nat, budget: nat, labels: seq<Text>, out: Text, jumped: bool, pos: nat)
  {
    var whole: nat := NAME_BUDGET;
    && budget <= whole
    && out == Dotted(labels) && (out == [] <==> labels == [])
    && Decode(buf, start, whole) == Prepend(labels, Decode(buf, p, budget))
    && if jumped then pos == CursorAfter(buf, start, whole, start)
       else pos == start <= p && CursorAfter(buf, start, whole, start) == CursorAfter(buf, p, budget, start)
  }

  lemma ReadingStarts(buf: seq<Byte>, start: nat)
    ensures Reading(buf, start, start, NAME_BUDGET, [], [], false, start)
  {
    hide Decode, CursorAfter, ValidUtf8;
    PrependNothing(Decode(buf, start, NAME_BUDGET));
  }

  lemma ReadingFails(
    buf: seq<Byte>, start: nat, p: nat, budget: nat, labels: seq<Text>, out: Text, jumped: bool, pos: nat)
    requires Reading(buf, start, p, budget, labels, out, jumped, pos)
    requires budget == 0 || NodeAt(buf, p).Bad?
    ensures NameAt(buf, start) == None && pos == EndOfName(buf, start)
  {
    hide ValidUtf8, NodeAt;
    NameByBudget(buf, start, NAME_BUDGET);
  }

  lemma ReadingEnds(
    buf: seq<Byte>, start: nat, p: nat, budget: nat, labels: seq<Text>, out: Text, jumped: bool, pos: nat)
    requires Reading(buf, start, p, budget, labels, out, jumped, pos)
    requires budget > 0 && NodeAt(buf, p).End?
    ensures NameAt(buf, start) == Some(out)
    ensures EndOfName(buf, start) == if jumped then pos else p + 1
  {
    hide ValidUtf8, NodeAt;
    NameByBudget(buf, start, NAME_BUDGET);
    assert labels + [] == labels;
  }

  lemma ReadingJumps(
    buf: seq<Byte>, start: nat, p: nat, budget: nat, labels: seq<Text>, out: Text, jumped: bool, pos: nat)
    requires Reading(buf, start, p, budget, labels, out, jumped, pos)
    requires budget > 0 && NodeAt(buf, p).Jump?
    ensures Reading(buf, start, NodeAt(buf, p).target, budget - 1, labels, out, true, if jumped then pos else p + 2)
  {
    hide ValidUtf8, NodeAt;
  }

  lemma ReadingLabel(
    buf: seq<Byte>, start: nat, p: nat, budget: nat, labels: seq<Text>, out: Text, jumped: bool, pos: nat)
    requires Reading(buf, start, p, budget, labels, out, jumped, pos)
    requires budget > 0 && NodeAt(buf, p).Label?
    ensures var text := NodeAt(buf, p).text;
            Reading(buf, start, NodeAt(buf, p).after, budget - 1, labels + [text],
                    (if out == [] then [] else out + [DOT]) + text, jumped, pos)
  {
    hide ValidUtf8, NodeAt;
    var n := NodeAt(buf, p);
    PrependAppend(labels, n.text, Decode(buf, n.after, budget - 1));
    assert (labels + [n.text])[..|labels|] == labels;
    assert n.text != [];
  }

  lemma NameByBudget(buf: seq<Byte>, p: nat, budget: nat)
    requires budget == NAME_BUDGET
    ensures NameAt(buf, p) == match Decode(buf, p, budget) case Some(labels) => Some(Dotted(labels)) case None => None
    ensures EndOfName(buf, p) == CursorAfter(buf, p, budget, p)
  {
  }

  lemma PrependAppend(front: seq<Text>, text: Text, rest: Option<seq<Text>>)
    ensures Prepend(front, Prepend([text], rest)) == Prepend(front + [text], rest)
  {
    if rest.Some? {
      assert front + ([text] + rest.value) == front + [text] + rest.value;
    }
  }
}

/** Expansion of an IPv4 block (section 3.1 of RFC 4632) with 32-bit word arithmetic. */
module Cidr {
  import opened Net
  import opened Bits

  const CIDR_MAX_ADDRESSES: nat := 65536
  const WORD: nat := 0x1_0000_0000

  datatype CidrError =
    | MaskOutOfRange(max: nat, got: nat)
    | TooLarge(count: nat)
    | Ipv6Unsupported

  /** `!0u32 << h`, for a shift below the word width. */
  function HighOnes(h: nat): nat
    requires h < 32
  {
    ((WORD - 1) * Pow2(h)) % WORD
  }

  function WrappingAdd(a: U32, b: U32): U32 {
    (a + b) % WORD
  }

  function DecimalDigits(n: nat): string {
    if n < 10 then ["0123456789"[n]] else DecimalDigits(n / 10) + ["0123456789"[n % 10]]
  }

  function DottedQuad(a: U32): string {
    DecimalDigits(a / 0x100_0000) + "." + DecimalDigits(a / 0x1_0000 % 0x100) + "."
    + DecimalDigits(a / 0x100 % 0x100) + "." + DecimalDigits(a % 0x100)
  }

  /** Reading a dotted quad back: digits make numbers, a dot begins the next one. */
  function ReadQuad(s: string, before: nat, number: nat): nat {
    if s == [] then before * 256 + number
    else if s[0] == '.' then ReadQuad(s[1..], before * 256 + number, 0)
    else ReadQuad(s[1..], before, number * 10 + if s[0] >= '0' then s[0] as nat - '0' as nat else 0)
  }

  lemma DigitIsRead(d: nat, rest: string, before: nat, number: nat)
    requires d < 10
    ensures ReadQuad(["0123456789"[d]] + rest, before, number) == ReadQuad(rest, before, number * 10 + d)
  {
    assert (["0123456789"[d]] + rest)[1..] == rest;
  }

  lemma {:induction false} NumberIsRead(n: nat, rest: string, before: nat)
    ensures ReadQuad(DecimalDigits(n) + rest, before, 0) == ReadQuad(rest, before, n)
    decreases n
  {
    hide ReadQuad;
    var last := ["0123456789"[n % 10]];
    if n < 10 {
      DigitIsRead(n, rest, before, 0);
    } else {
      NumberIsRead(n / 10, last + rest, before);
      assert DecimalDigits(n) + rest == DecimalDigits(n / 10) + (last + rest);
      DigitIsRead(n % 10, rest, before, n / 10);
    }
  }

  lemma DotIsRead(rest: string, before: nat, number: nat)
    ensures ReadQuad("." + rest, before, number) == ReadQuad(rest, before * 256 + number, 0)
  {
    assert ("." + rest)[1..] == rest;
  }

  /** The display of an address reads back as the address. */
  lemma QuadReadsBack(a: U32)
    ensures ReadQuad(DottedQuad(a), 0, 0) == a
  {
    hide ReadQuad, DecimalDigits;
    var w, x, y, z := a / 0x100_0000, a / 0x1_0000 % 0x100, a / 0x100 % 0x100, a % 0x100;
    var dz := DecimalDigits(z) + [];
    var dy := DecimalDigits(y) + ("." + dz);
    var dx := DecimalDigits(x) + ("." + dy);
    assert DottedQuad(a) == DecimalDigits(w) + ("." + dx);
    NumberIsRead(w, "." + dx, 0);
    DotIsRead(dx, 0, w);
    NumberIsRead(x, "." + dy, w);
    DotIsRead(dy, w, x);
    NumberIsRead(y, "." + dz, w * 256 + x);
    DotIsRead(dz, w * 256 + x, y);
    NumberIsRead(z, [], (w * 256 + x) * 256 + y);
    EndIsRead((w * 256 + x) * 256 + y, z);
    OctetsMakeWord(a);
  }

  lemma EndIsRead(before: nat, number: nat)
    ensures ReadQuad([], before, number) == before * 256 + number
  {
  }

  lemma OctetsMakeWord(a: U32)
    ensures ((a / 0x100_0000 * 256 + a / 0x1_0000 % 0x100) * 256 + a / 0x100 % 0x100) * 256 + a % 0x100 == a
  {
  }

  /** Its numbers are written in digits, without leading zeros. */
  lemma {:induction false} DigitsAreCanonical(n: nat)
    ensures var s := DecimalDigits(n);
            s != [] && (forall i :: 0 <= i < |s| ==> '0' <= s[i] <= '9') && (s[0] == '0' ==> n == 0)
    decreases n
  {
    if n >= 10 {
      DigitsAreCanonical(n / 10);
    }
  }

  lemma KnownQuad()
    ensures DottedQuad(0xC0A8_012A) == "192.168.1.42"
  {
    KnownNumbers();
    hide DecimalDigits;
    assert "192" + "." + "168" + "." + "1" + "." + "42" == "192.168.1.42";
  }

  lemma KnownNumbers()
    ensures DecimalDigits(192) == "192" && DecimalDigits(168) == "168"
    ensures DecimalDigits(1) == "1" && DecimalDigits(42) == "42"
  {
    assert DecimalDigits(19) == "19" && DecimalDigits(16) == "16";
  }

  function TargetOf(a: U32): Target {
    Target(V4(a), None, DottedQuad(a))
  }

  /** The leading `mask` bits of two addresses agree. */
  predicate SameBlock(a: U32, b: U32, mask: nat)
    requires mask <= 32
  {
    a / Pow2(32 - mask) == b / Pow2(32 - mask)
  }

  /** The least address of the block of `a`. */
  function BlockStart(a: U32, mask: nat): U32
    requires mask <= 32
  {
    DivideBasics(a, Pow2(32 - mask));
    a - a % Pow2(32 - mask)
  }

  method ParseCidr(ip: IpAddr, mask: Byte) returns (r: Result<seq<Target>, CidrError>)
    ensures ip.V6? ==> r == Err(Ipv6Unsupported)
    ensures ip.V4? && mask > 32 ==> r == Err(MaskOutOfRange(32, mask))
    ensures ip.V4? && mask < 16 ==> r == Err(TooLarge(Pow2(32 - mask)))
    ensures r.Ok? <==> ip.V4? && 16 <= mask <= 32
    ensures r.Ok? ==> r.value == Block(ip.bits, mask)
  {
    hide Pow2, And, HighOnes, BlockStart, DottedQuad;
    match ip
    case V6(_) => r := Err(Ipv6Unsupported);
    case V4(v4) =>
      if mask > 32 {
        return Err(MaskOutOfRange(32, mask));
      }
      var hostBits: nat := 32 - mask;
      var count := Pow2(hostBits);
      BlockSizes(hostBits);
      if count > CIDR_MAX_ADDRESSES {
        return Err(TooLarge(count));
      }
      // The branch for a zero mask is never taken here, so the shift stays below the word width.
      assert mask != 0;
      var base := And(v4, HighOnes(hostBits));
      BaseIsBlockStart(v4, mask);
      var out: seq<Target> := [];
      for i := 0 to count
        invariant |out| == i
        invariant forall j :: 0 <= j < i ==> out[j] == Block(v4, mask)[j]
      {
        BlockStaysInWord(v4, mask, i);
        out := out + [TargetOf(WrappingAdd(base, i))];
      }
      assert out == Block(v4, mask);
      r := Ok(out);
  }

  /** The addresses of a block, in ascending order. */
  function Block(a: U32, mask: nat): (r: seq<Target>)
    requires mask <= 32
    ensures |r| == Pow2(32 - mask)
    ensures forall j :: 0 <= j < |r| ==> BlockStart(a, mask) + j < WORD && r[j] == TargetOf(BlockStart(a, mask) + j)
  {
    BlockFits(a, mask);
    seq(Pow2(32 - mask), j requires 0 <= j < Pow2(32 - mask) => TargetOf(BlockStart(a, mask) + j))
  }

  /** The size limit is the mask range, and a zero mask never gets past it. */
  lemma BlockSizes(h: nat)
    ensures Pow2(h) <= CIDR_MAX_ADDRESSES <==> h <= 16
  {
    Pow2Values();
    if h <= 16 {
      Pow2Monotone(h, 16);
    } else {
      Pow2Monotone(17, h);
    }
  }

  /** The shifted mask has ones exactly above the host bits. */
  lemma HighOnesValue(h: nat)
    requires h < 32
    ensures Pow2(h) <= WORD && HighOnes(h) == WORD - Pow2(h)
  {
    Pow2Values();
    Pow2Monotone(h, 32);
    var p := Pow2(h);
    assert (WORD - 1) * p == (p - 1) * WORD + (WORD - p);
    DivideRow(p - 1, WORD, WORD - p);
  }

  lemma BaseIsBlockStart(a: U32, mask: nat)
    requires 0 < mask <= 32
    ensures And(a, HighOnes(32 - mask)) == BlockStart(a, mask)
  {
    Pow2Values();
    HighOnesValue(32 - mask);
    AndHighMask(a, 32 - mask, 32);
  }

  /** No address of the block reaches past the last word. */
  lemma BlockFits(a: U32, mask: nat)
    requires mask <= 32
    ensures BlockStart(a, mask) + Pow2(32 - mask) <= WORD
  {
    Pow2Values();
    Pow2Sum(mask, 32 - mask);
    SpanFits(a, Pow2(32 - mask), Pow2(mask));
  }

  lemma SpanFits(a: nat, p: nat, n: nat)
    requires p > 0 && a < n * p
    ensures a - a % p + p <= n * p
  {
    DivideBasics(a, p);
    var q := a / p;
    if q >= n {
      MultiplyMonotone(n, q, p);
    } else {
      MultiplyMonotone(q + 1, n, p);
      assert (q + 1) * p == q * p + p;
    }
  }

  lemma BlockStaysInWord(a: U32, mask: nat, i: nat)
    requires mask <= 32 && i < Pow2(32 - mask)
    ensures BlockStart(a, mask) + i < WORD
    ensures i < WORD && WrappingAdd(BlockStart(a, mask), i) == BlockStart(a, mask) + i
  {
    BlockFits(a, mask);
  }

  // ---- What a block is ----

  lemma SameBlockByStart(a: U32, b: U32, mask: nat)
    requires mask <= 32
    ensures SameBlock(a, b, mask) <==> BlockStart(a, mask) <= b < BlockStart(a, mask) + Pow2(32 - mask)
  {
    SameQuotient(a, b, Pow2(32 - mask));
  }

  lemma SameBlockSameStart(a: U32, b: U32, mask: nat)
    requires mask <= 32 && SameBlock(a, b, mask)
    ensures BlockStart(a, mask) == BlockStart(b, mask)
  {
    DivideBasics(a, Pow2(32 - mask));
    DivideBasics(b, Pow2(32 - mask));
  }

  predicate Lists(targets: seq<Target>, x: U32) {
    exists j :: 0 <= j < |targets| && targets[j].ip == V4(x)
  }

  /** A block lists, strictly ascending, exactly the addresses that share the leading bits, the
      given one among them; each target shows its own address and has no zone. */
  lemma BlockIsExact(a: U32, mask: nat, x: U32)
    requires mask <= 32
    ensures Lists(Block(a, mask), x) <==> SameBlock(a, x, mask)
    ensures Lists(Block(a, mask), a)
    ensures forall j :: 0 <= j < |Block(a, mask)| ==>
              var t := Block(a, mask)[j];
              t.ip.V4? && t.zone == None && ReadQuad(t.display, 0, 0) == t.ip.bits
    ensures forall i, j :: 0 <= i < j < |Block(a, mask)| ==>
              Block(a, mask)[i].ip.bits < Block(a, mask)[j].ip.bits
  {
    hide Block, BlockStart, DottedQuad;
    BlockHolds(a, mask, x);
    BlockHolds(a, mask, a);
    BlockDisplays(a, mask);
  }

  lemma BlockDisplays(a: U32, mask: nat)
    requires mask <= 32
    ensures forall j :: 0 <= j < |Block(a, mask)| ==>
              var t := Block(a, mask)[j];
              t.ip.V4? && t.zone == None && ReadQuad(t.display, 0, 0) == t.ip.bits
  {
    hide DottedQuad, BlockStart;
    forall j | 0 <= j < |Block(a, mask)|
      ensures var t := Block(a, mask)[j];
              t.ip.V4? && t.zone == None && ReadQuad(t.display, 0, 0) == t.ip.bits
    {
      BlockStaysInWord(a, mask, j);
      QuadReadsBack(BlockStart(a, mask) + j);
    }
  }

  lemma BlockHolds(a: U32, mask: nat, x: U32)
    requires mask <= 32
    ensures Lists(Block(a, mask), x) <==> SameBlock(a, x, mask)
  {
    hide DottedQuad, SameBlock, BlockStart;
    SameBlockByStart(a, x, mask);
    var block, start := Block(a, mask), BlockStart(a, mask);
    if SameBlock(a, x, mask) {
      assert block[x - start].ip == V4(x);
    }
    if Lists(block, x) {
      var j :| 0 <= j < |block| && block[j].ip == V4(x);
      assert x == start + j;
    }
  }

  /** Any member regenerates the same list. */
  lemma MembersRegenerateBlock(a: U32, b: U32, mask: nat)
    requires mask <= 32 && SameBlock(a, b, mask)
    ensures Block(a, mask) == Block(b, mask)
  {
    hide TargetOf, BlockStart;
    SameBlockSameStart(a, b, mask);
  }

  /** Two blocks are nested or disjoint. */
  lemma BlocksNestOrAreDisjoint(a: U32, m: nat, b: U32, n: nat)
    requires m <= n <= 32
    ensures (forall x: U32 :: SameBlock(b, x, n) ==> SameBlock(a, x, m))
         || (forall x: U32 :: !(SameBlock(a, x, m) && SameBlock(b, x, n)))
  {
    forall x: U32 | SameBlock(b, x, n) ensures SameBlock(a, x, m) <==> SameBlock(a, b, m) {
      CoarserBlock(b, x, m, n);
    }
  }

  lemma CoarserBlock(a: U32, b: U32, m: nat, n: nat)
    requires m <= n <= 32 && SameBlock(a, b, n)
    ensures SameBlock(a, b, m)
  {
    var p, q := Pow2(32 - n), Pow2(n - m);
    Pow2Sum(n - m, 32 - n);
    DivideTwice(a, p, q);
    DivideTwice(b, p, q);
  }

  lemma DivideTwice(a: nat, p: nat, q: nat)
    requires p > 0 && q > 0
    ensures q * p > 0 && a / (q * p) == (a / p) / q
  {
    var d := a / p;
    DivideBasics(a, p);
    DivideBasics(d, q);
    SpreadProduct(d / q, q, d % q, p);
    RestFits(d % q, q, a % p, p);
    DivideRow(d / q, q * p, (d % q) * p + a % p);
  }

  lemma SpreadProduct(e: nat, q: nat, n: nat, p: nat)
    ensures (e * q + n) * p == e * (q * p) + n * p
  {
    assert (e * q + n) * p == (e * q) * p + n * p;
    assert (e * q) * p == e * (q * p);
  }

  lemma RestFits(n: nat, q: nat, m: nat, p: nat)
    requires n < q && m < p
    ensures n * p + m < q * p
  {
    MultiplyMonotone(n + 1, q, p);
    assert (n + 1) * p == n * p + p;
  }
}

/** The order of the returned hits: by kind, then display text, then port. */
module HitOrder {
  import opened Sequences
  import opened ScanMachine

  datatype Key = Key(priority: nat, display: string, port: nat)

  function KeyOf(h: Hit): Key {
    Key(match h.kind case Plain => 0 case Tls => 1 case Open => 2, h.target.display, h.port)
  }

  predicate TextLeq(a: string, b: string) {
    a == [] || (b != [] && (a[0] < b[0] || (a[0] == b[0] && TextLeq(a[1..], b[1..]))))
  }

  predicate KeyLeq(a: Key, b: Key) {
    a.priority < b.priority
    || (a.priority == b.priority
        && (if a.display == b.display then a.port <= b.port else TextLeq(a.display, b.display)))
  }

  predicate HitLeq(a: Hit, b: Hit) {
    KeyLeq(KeyOf(a), KeyOf(b))
  }

  lemma {:induction false} TextOrder(a: string, b: string, c: string)
    ensures TextLeq(a, b) || TextLeq(b, a)
    ensures TextLeq(a, b) && TextLeq(b, a) ==> a == b
    ensures TextLeq(a, b) && TextLeq(b, c) ==> TextLeq(a, c)
  {
    if a != [] && b != [] {
      TextOrder(a[1..], b[1..], if c == [] then [] else c[1..]);
      assert a == [a[0]] + a[1..] && b == [b[0]] + b[1..];
    }
  }

  /** The sort key is a total order, so equal multisets of keys have one sorted arrangement. */
  lemma KeyOrder()
    ensures TotalPreorder(KeyLeq) && Antisymmetric(KeyLeq)
    ensures TotalPreorder(HitLeq)
  {
    forall a: Key, b: Key, c: Key
      ensures KeyLeq(a, b) || KeyLeq(b, a)
      ensures KeyLeq(a, b) && KeyLeq(b, a) ==> a == b
      ensures KeyLeq(a, b) && KeyLeq(b, c) ==> KeyLeq(a, c)
    {
      TextOrder(a.display, b.display, c.display);
      TextOrder(b.display, a.display, c.display);
      TextOrder(b.display, c.display, a.display);
    }
  }

  // ---- What the order means ----

  /** `a` is `b`, or its proper prefix, or has the smaller character where they first differ. */
  ghost predicate UpTo(a: string, b: string) {
    || a == b
    || (|a| < |b| && b[..|a|] == a)
    || exists k :: 0 <= k < |a| && k < |b| && a[..k] == b[..k] && a[k] < b[k]
  }

  lemma {:induction false} TextLeqIsUpTo(a: string, b: string)
    requires TextLeq(a, b)
    ensures UpTo(a, b)
  {
    if a == [] {
      assert b == [] || b[..0] == a;
    } else if a[0] < b[0] {
      assert a[..0] == b[..0] && a[0] < b[0];
    } else {
      TextLeqIsUpTo(a[1..], b[1..]);
      UpToBehind(a[0], a[1..], b[1..]);
      assert a == [a[0]] + a[1..] && b == [b[0]] + b[1..];
    }
  }

  lemma UpToBehind(c: char, a: string, b: string)
    requires UpTo(a, b)
    ensures UpTo([c] + a, [c] + b)
  {
    var x, y := [c] + a, [c] + b;
    if a == b {
    } else if |a| < |b| && b[..|a|] == a {
      assert y[..|x|] == [c] + b[..|a|];
    } else {
      var k :| 0 <= k < |a| && k < |b| && a[..k] == b[..k] && a[k] < b[k];
      assert x[..k + 1] == [c] + a[..k] && y[..k + 1] == [c] + b[..k];
      assert x[k + 1] < y[k + 1];
    }
  }

  /** Plain hits come before TLS hits and those before merely open ports; within a kind display texts
      ascend, and within a text ports. */
  ghost predicate ReturnedBefore(a: Hit, b: Hit) {
    && (b.kind.Plain? ==> a.kind.Plain?)
    && (a.kind.Open? ==> b.kind.Open?)
    && (a.kind == b.kind ==> UpTo(a.target.display, b.target.display))
    && (a.kind == b.kind && a.target.display == b.target.display ==> a.port <= b.port)
  }

  lemma SortedIsReturnOrder(hits: seq<Hit>)
    requires Sorted(HitLeq, hits)
    ensures forall i, j :: 0 <= i < j < |hits| ==> ReturnedBefore(hits[i], hits[j])
  {
    forall i, j | 0 <= i < j < |hits| ensures ReturnedBefore(hits[i], hits[j]) {
      LeqIsReturnedBefore(hits[i], hits[j]);
    }
  }

  lemma LeqIsReturnedBefore(a: Hit, b: Hit)
    requires HitLeq(a, b)
    ensures ReturnedBefore(a, b)
  {
    hide UpTo, TextLeq;
    if a.kind == b.kind {
      if a.target.display == b.target.display {
        SameText(a.target.display);
      } else {
        TextLeqIsUpTo(a.target.display, b.target.display);
      }
    }
  }

  lemma SameText(a: string)
    ensures UpTo(a, a)
  {
  }

  function KeyItem(h: Hit): seq<Key> {
    [KeyOf(h)]
  }

  /** The sort keys of a hit list, in order. */
  function Keys(hits: seq<Hit>): seq<Key> {
    Collect(KeyItem, hits)
  }

  lemma {:induction false} KeysAt(hits: seq<Hit>)
    ensures |Keys(hits)| == |hits| && forall i :: 0 <= i < |hits| ==> Keys(hits)[i] == KeyOf(hits[i])
  {
    if hits != [] {
      KeysAt(hits[..|hits| - 1]);
    }
  }

  /** Sorting any two arrangements of the same hits gives the same sequence of keys. */
  lemma SortedKeysAgree(a: seq<Hit>, b: seq<Hit>)
    requires multiset(a) == multiset(b)
    ensures Keys(StableSort(HitLeq, a)) == Keys(StableSort(HitLeq, b))
  {
    KeyOrder();
    var x, y := StableSort(HitLeq, a), StableSort(HitLeq, b);
    StableSortSorts(HitLeq, a);
    StableSortSorts(HitLeq, b);
    CollectPermutation(KeyItem, x, y);
    KeysAt(x);
    KeysAt(y);
    SortedUnique(KeyLeq, Keys(x), Keys(y));
  }
}

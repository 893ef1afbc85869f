/** The names of the cells, and exactly when two callers of the rate limiter use the same ones. */
module RateKeys {
  const MARK := ":rate:"
  const SUFFIX := ":block"

  datatype Pair = Pair(namespace: string, key: string) {
    function Counter(): string {
      namespace + MARK + key
    }

    function Block(): string {
      Counter() + SUFFIX
    }
  }

  predicate SharesCells(p: Pair, q: Pair) {
    p.Counter() == q.Counter() || p.Counter() == q.Block() || p.Block() == q.Counter() || p.Block() == q.Block()
  }

  /** The block of a key is the counter of the key with `:block` added. */
  lemma BlockIsACounter(p: Pair)
    ensures p.Counter() == p.namespace + ":rate:" + p.key && p.Block() == p.namespace + ":rate:" + p.key + ":block"
    ensures p.Block() == Pair(p.namespace, p.key + SUFFIX).Counter() && p.Block() != p.Counter()
  {
    assert (p.namespace + MARK + p.key) + SUFFIX == p.namespace + MARK + (p.key + SUFFIX);
    assert |p.Block()| == |p.Counter()| + 6;
  }

  /**
   * One namespace continues the other and takes the beginning of its key with it, past a mark of its own or
   * into it.
   */
  predicate Slides(p: Pair, q: Pair) {
    var n := |q.namespace| - |p.namespace|;
    || (n >= 6 && q.namespace == p.namespace + MARK + q.namespace[|p.namespace| + 6..]
        && p.key == q.namespace[|p.namespace| + 6..] + MARK + q.key)
    || (n == 5 && q.namespace == p.namespace + ":rate" && p.key == "rate:" + q.key)
  }

  lemma SlidingCollides(p: Pair, q: Pair)
    requires Slides(p, q)
    ensures p.Counter() == q.Counter()
  {
    if |q.namespace| - |p.namespace| >= 6 {
      var x := q.namespace[|p.namespace| + 6..];
      assert p.namespace + MARK + (x + MARK + q.key) == (p.namespace + MARK + x) + MARK + q.key;
    } else {
      assert MARK == ":" + "rate:" && ":rate:" + "rate:" == ":rate" + ":rate:";
      assert p.namespace + MARK + ("rate:" + q.key) == (p.namespace + ":rate") + MARK + q.key;
    }
  }

  lemma SameLengthIsSame(p: Pair, q: Pair)
    requires |p.namespace| == |q.namespace| && p.Counter() == q.Counter()
    ensures p == q
  {
    var x, n := p.Counter(), |p.namespace|;
    assert x[..n] == p.namespace && x[..n] == q.namespace && x[n + 6..] == p.key && x[n + 6..] == q.key;
  }

  lemma CollidingSlides(p: Pair, q: Pair)
    requires |p.namespace| < |q.namespace| && p.Counter() == q.Counter()
    ensures Slides(p, q)
  {
    var x, a, b := p.Counter(), |p.namespace|, |q.namespace|;
    assert x[..a] == p.namespace && x[a..a + 6] == MARK && x[a + 6..] == p.key;
    assert x[..b] == q.namespace && x[b..b + 6] == MARK && x[b + 6..] == q.key;
    if b - a >= 6 {
      assert x[..b] == x[..a] + x[a..a + 6] + x[a + 6..b];
      assert x[a + 6..] == x[a + 6..b] + x[b..b + 6] + x[b + 6..];
      assert q.namespace[a + 6..] == x[a + 6..b];
    } else {
      MarksOverlap(x, a, b);
      assert x[..b] == x[..a] + x[a..b];
      assert x[a + 6..] == x[a + 6..b + 6] + x[b + 6..];
    }
  }

  /** Two marks overlap by their last and first colon or not at all. */
  lemma MarksOverlap(x: string, a: nat, b: nat)
    requires a < b < a + 6 && b + 6 <= |x| && x[a..a + 6] == MARK && x[b..b + 6] == MARK
    ensures b == a + 5 && x[a..b] == ":rate" && x[a + 6..b + 6] == "rate:"
  {
    assert x[b] == x[b..b + 6][0] == ':' && x[a..a + 6][b - a] == x[b];
    assert b - a == 5;
    assert x[a..b] == MARK[..5];
    assert x[a + 6..b + 6] == x[b..b + 6][1..];
  }

  /** Exactly when two pairs count in the same cell. */
  lemma CountersCollideExactly(p: Pair, q: Pair)
    ensures p.Counter() == q.Counter() <==> p == q || Slides(p, q) || Slides(q, p)
  {
    if p.Counter() == q.Counter() {
      if |p.namespace| < |q.namespace| { CollidingSlides(p, q); }
      else if |q.namespace| < |p.namespace| { CollidingSlides(q, p); }
      else { SameLengthIsSame(p, q); }
    }
    if Slides(p, q) { SlidingCollides(p, q); }
    if Slides(q, p) { SlidingCollides(q, p); }
  }

  function Blocking(p: Pair): Pair {
    Pair(p.namespace, p.key + SUFFIX)
  }

  lemma SameBlocks(p: Pair, q: Pair)
    ensures p.Block() == q.Block() <==> p.Counter() == q.Counter()
  {
    if p.Block() == q.Block() {
      assert |p.Counter()| == |q.Counter()|;
      assert p.Block()[..|p.Counter()|] == p.Counter() && q.Block()[..|q.Counter()|] == q.Counter();
    }
  }

  predicate Collide(p: Pair, q: Pair) {
    p == q || Slides(p, q) || Slides(q, p)
  }

  /**
   * Exactly when two pairs have a cell in common: counter with counter, or the counter of one with the block
   * of the other.
   */
  lemma CellsAreSharedExactly(p: Pair, q: Pair)
    ensures SharesCells(p, q) <==> Collide(p, q) || Collide(Blocking(p), q) || Collide(p, Blocking(q))
  {
    BlockIsACounter(p);
    BlockIsACounter(q);
    SameBlocks(p, q);
    CountersCollideExactly(p, q);
    CountersCollideExactly(Blocking(p), q);
    CountersCollideExactly(p, Blocking(q));
  }

  /** Within one namespace only a key and the same key with `:block` added share a cell. */
  lemma OneNamespaceSharesExactly(namespace: string, key: string, other: string)
    ensures SharesCells(Pair(namespace, key), Pair(namespace, other)) <==>
      key == other || other == key + SUFFIX || key == other + SUFFIX
  {
    CellsAreSharedExactly(Pair(namespace, key), Pair(namespace, other));
  }

  /** Across namespaces it happens too. */
  lemma NamespacesCanCollide()
    ensures Pair("a", "b:rate:c").Counter() == Pair("a:rate:b", "c").Counter()
    ensures Pair("a", "rate:c").Counter() == Pair("a:rate", "c").Counter()
  {
    SlidingCollides(Pair("a", "b:rate:c"), Pair("a:rate:b", "c"));
    SlidingCollides(Pair("a", "rate:c"), Pair("a:rate", "c"));
  }
}

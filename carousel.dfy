/**
 * The featured-giveaway carousel: a current index over a fixed list of
 * items, moved one step back or forward with wrap-around.
 */
module Carousel {
  import opened Wrappers

  datatype CarouselItem = CarouselItem(id: string, title: string, image: Option<string>)

  /** `(i + 1) % n`. */
  function NextIndex(i: nat, n: nat): (j: nat)
    requires i < n
    ensures j < n
    ensures j == if i == n - 1 then 0 else i + 1
  {
    (i + 1) % n
  }

  /** `(i - 1 + n) % n`. */
  function PrevIndex(i: nat, n: nat): (j: nat)
    requires i < n
    ensures j < n
    ensures j == if i == 0 then n - 1 else i - 1
  {
    (i - 1 + n) % n
  }

  /** Forward and back are inverse steps. */
  lemma PrevUndoesNext(i: nat, n: nat)
    requires i < n
    ensures PrevIndex(NextIndex(i, n), n) == i
    ensures NextIndex(PrevIndex(i, n), n) == i
  {
  }

  /** `k` forward steps from `i`. */
  function Advance(i: nat, n: nat, k: nat): (j: nat)
    requires i < n
    ensures j < n
  {
    if k == 0 then i else NextIndex(Advance(i, n, k - 1), n)
  }

  /** `k` forward steps land on `(i + k) % n`. */
  lemma {:induction false} AdvanceIsModular(i: nat, n: nat, k: nat)
    requires i < n
    ensures Advance(i, n, k) == (i + k) % n
  {
    if k > 0 {
      AdvanceIsModular(i, n, k - 1);
      var j := Advance(i, n, k - 1);
      assert j == (i + k - 1) % n;
      ModSucc(i + k - 1, n);
    }
  }

  lemma ModSucc(x: nat, n: nat)
    requires n > 0
    ensures (x % n + 1) % n == (x + 1) % n
  {
    var q := x / n;
    var r := x % n;
    assert x == n * q + r;
    if r + 1 == n {
      assert n * (q + 1) == n * q + n;
      ModOfRemainder(q + 1, 0, n);
      ModOfRemainder(1, 0, n);
    } else {
      ModOfRemainder(q, r + 1, n);
      ModOfRemainder(0, r + 1, n);
    }
  }

  lemma ModOfRemainder(q: nat, r: nat, n: nat)
    requires r < n
    ensures (n * q + r) % n == r
  {
    var a := n * q + r;
    var q' := a / n;
    var r' := a % n;
    assert n * q' + r' == n * q + r;
    MulStrict(n, q', q);
    MulStrict(n, q, q');
  }

  lemma {:induction false} MulStrict(n: nat, a: nat, b: nat)
    ensures a < b ==> n * a + n <= n * b
    decreases b
  {
    if a < b {
      assert n * b == n * (b - 1) + n;
      if a < b - 1 {
        MulStrict(n, a, b - 1);
      }
    }
  }

  /** `n` forward steps come back to where they started. */
  lemma FullTurnIsIdentity(i: nat, n: nat)
    requires i < n
    ensures Advance(i, n, n) == i
  {
    AdvanceIsModular(i, n, n);
    ModOfRemainder(1, i, n);
  }

  class CarouselState {
    const items: seq<CarouselItem>
    var index: nat

    ghost predicate Valid()
      reads this
    {
      |items| == 0 || index < |items|
    }

    /** The first render: `useState(0)`. */
    constructor(items: seq<CarouselItem>)
      ensures Valid()
      ensures this.items == items && index == 0
    {
      this.items := items;
      index := 0;
    }

    /** The item on show; nothing is rendered for an empty list. */
    function Current(): (c: Option<CarouselItem>)
      requires Valid()
      reads this
      ensures c.None? <==> |items| == 0
      ensures c.Some? ==> c.value == items[index]
    {
      if |items| == 0 then None else Some(items[index])
    }

    /** The "#k" caption: the one-based position of the item on show. */
    function Position(): (k: nat)
      requires Valid() && |items| > 0
      reads this
      ensures 1 <= k <= |items|
      ensures Current() == Some(items[k - 1])
    {
      index + 1
    }

    /** The "‹" button. */
    method Prev()
      requires Valid() && |items| > 0
      modifies this
      ensures Valid()
      ensures index == PrevIndex(old(index), |items|)
    {
      index := (index - 1 + |items|) % |items|;
    }

    /** The "›" button. */
    method Next()
      requires Valid() && |items| > 0
      modifies this
      ensures Valid()
      ensures index == NextIndex(old(index), |items|)
    {
      index := (index + 1) % |items|;
    }
  }
}

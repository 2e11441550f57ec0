/** The rotating headline: an index into a list of texts, advanced by a timer. */
module RotatingText {
  import opened Wrappers

  /** One tick of the interval callback. */
  function Next(i: nat, n: nat): (r: nat)
    requires n > 0
    ensures r < n
    ensures i < n - 1 ==> r == i + 1
    ensures i == n - 1 ==> r == 0
  {
    (i + 1) % n
  }

  /** The index after k ticks from i. */
  function Ticks(i: nat, n: nat, k: nat): (r: nat)
    requires n > 0
    ensures i < n ==> r < n
  {
    if k == 0 then i else Next(Ticks(i, n, k - 1), n)
  }

  /** Ticking a then b times is ticking a + b times. */
  lemma {:induction false} TicksCompose(i: nat, n: nat, a: nat, b: nat)
    requires n > 0
    ensures Ticks(i, n, a + b) == Ticks(Ticks(i, n, a), n, b)
  {
    if b > 0 {
      TicksCompose(i, n, a, b - 1);
    }
  }

  /** Before the wrap the index simply counts up. */
  lemma {:induction false} TicksCountUp(i: nat, n: nat, k: nat)
    requires n > 0 && i + k < n
    ensures Ticks(i, n, k) == i + k
  {
    if k > 0 {
      TicksCountUp(i, n, k - 1);
    }
  }

  /** n ticks bring an in-range index back to where it started. */
  lemma FullCycle(i: nat, n: nat)
    requires n > 0 && i < n
    ensures Ticks(i, n, n) == i
  {
    TicksCountUp(i, n, n - i - 1);
    assert Ticks(i, n, n - i) == 0;
    TicksCompose(i, n, n - i, i);
    TicksCountUp(0, n, i);
  }

  class Rotator {
    var texts: seq<string>
    var index: nat

    /** The timer is installed only when there is something to rotate through. */
    predicate TimerInstalled()
      reads this
    {
      |texts| > 1
    }

    predicate Valid()
      reads this
    {
      index == 0 || index < |texts|
    }

    constructor (texts: seq<string>)
      ensures this.texts == texts && index == 0
      ensures Valid()
    {
      this.texts := texts;
      index := 0;
    }

    /** One interval callback; without a timer there is no tick and the index stays put. */
    method Tick()
      requires Valid()
      modifies this`index
      ensures Valid()
      ensures TimerInstalled() ==> index == Next(old(index), |texts|)
      ensures !TimerInstalled() ==> index == old(index)
    {
      if |texts| > 1 {
        index := (index + 1) % |texts|;
      }
    }

    /** k ticks. */
    method Run(k: nat)
      requires Valid()
      modifies this`index
      ensures Valid()
      ensures TimerInstalled() ==> index == Ticks(old(index), |texts|, k)
      ensures !TimerInstalled() ==> index == old(index)
    {
      var j := 0;
      while j < k
        invariant 0 <= j <= k
        invariant Valid()
        invariant TimerInstalled() ==> index == Ticks(old(index), |texts|, j)
        invariant !TimerInstalled() ==> index == old(index)
      {
        Tick();
        j := j + 1;
      }
    }

    /** The text shown: `texts[index]`, undefined when the index is past the end. */
    function Current(): (r: Option<string>)
      reads this
      ensures index < |texts| ==> r == Some(texts[index])
      ensures index >= |texts| ==> r.None?
    {
      if index < |texts| then Some(texts[index]) else None
    }
  }

  /** With a single text the index stays 0 however often the component re-renders. */
  method SingleTextStays(t: string, k: nat) returns (shown: Option<string>)
    ensures shown == Some(t)
  {
    var r := new Rotator([t]);
    r.Run(k);
    shown := r.Current();
  }

  /** After one full round of ticks the same text is shown again. */
  method FullRotation(r: Rotator) returns (before: Option<string>, after: Option<string>)
    requires r.Valid() && r.TimerInstalled()
    modifies r
    ensures before.Some? && after == before
  {
    before := r.Current();
    ghost var start := r.index;
    r.Run(|r.texts|);
    FullCycle(start, |r.texts|);
    after := r.Current();
  }
}

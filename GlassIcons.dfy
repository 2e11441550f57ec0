/**
 * The icon grid: drag-and-drop reordering of its items and the lookup of an
 * item's background from its colour name.
 */
module GlassIcons {
  import opened Wrappers
  import JsObject

  /** One grid item (its React icon element is not modelled; `labelText` is the source's `label`). */
  datatype Item = Item(id: string, color: string, labelText: string, href: Option<string>, customClass: Option<string>)

  /** What the drag library reports when a drag ends; `destination` is absent when dropped outside the grid. */
  datatype DropResult = DropResult(sourceIndex: nat, destination: Option<nat>)

  // ---------------------------------------------------------------------------
  // Reordering

  /** `splice(i, 1)`: the sequence without its element at `i`; the later elements move down one place. */
  function Remove<T>(s: seq<T>, i: nat): (r: seq<T>)
    requires i < |s|
    ensures |r| == |s| - 1
    ensures forall m :: 0 <= m < i ==> r[m] == s[m]
    ensures forall m :: i <= m < |r| ==> r[m] == s[m + 1]
  {
    s[..i] + s[i + 1..]
  }

  /** `splice(j, 0, x)`: `x` at position `j`, the elements from `j` on one place further up. */
  function Insert<T>(s: seq<T>, j: nat, x: T): (r: seq<T>)
    requires j <= |s|
    ensures |r| == |s| + 1
    ensures forall m :: 0 <= m < j ==> r[m] == s[m]
    ensures r[j] == x
    ensures forall m :: j < m < |r| ==> r[m] == s[m - 1]
  {
    s[..j] + [x] + s[j..]
  }

  /** The element at `i` taken out and put back in at `j`. */
  function Moved<T>(s: seq<T>, i: nat, j: nat): (r: seq<T>)
    requires i < |s| && j < |s|
    ensures |r| == |s|
  {
    Insert(Remove(s, i), j, s[i])
  }

  /** The moved element lands at the destination index. */
  lemma MovedAt<T>(s: seq<T>, i: nat, j: nat)
    requires i < |s| && j < |s|
    ensures Moved(s, i, j)[j] == s[i]
  {
  }

  /** Every other element keeps its relative order. */
  lemma MovedKeepsOthers<T>(s: seq<T>, i: nat, j: nat)
    requires i < |s| && j < |s|
    ensures Remove(Moved(s, i, j), j) == Remove(s, i)
  {
    var r := Remove(s, i);
    assert Moved(s, i, j)[..j] == r[..j];
    assert Moved(s, i, j)[j + 1..] == r[j..];
  }

  /** The result is a permutation of the input. */
  lemma MovedIsPermutation<T>(s: seq<T>, i: nat, j: nat)
    requires i < |s| && j < |s|
    ensures multiset(Moved(s, i, j)) == multiset(s)
  {
    var r := Remove(s, i);
    assert s == s[..i] + [s[i]] + s[i + 1..];
    calc {
      multiset(Moved(s, i, j));
      multiset(r[..j]) + multiset([s[i]]) + multiset(r[j..]);
      { assert r == r[..j] + r[j..]; }
      multiset(r) + multiset([s[i]]);
      multiset(s[..i]) + multiset(s[i + 1..]) + multiset([s[i]]);
      multiset(s);
    }
  }

  /** Dropping an item where it was picked up leaves the list as it was. */
  lemma MovedInPlace<T>(s: seq<T>, i: nat)
    requires i < |s|
    ensures Moved(s, i, i) == s
  {
    assert Remove(s, i)[..i] == s[..i];
    assert Remove(s, i)[i..] == s[i + 1..];
  }

  /** Dragging the item back undoes the move. */
  lemma MovedBack<T>(s: seq<T>, i: nat, j: nat)
    requires i < |s| && j < |s|
    ensures Moved(Moved(s, i, j), j, i) == s
  {
    var m := Moved(s, i, j);
    MovedAt(s, i, j);
    MovedKeepsOthers(s, i, j);
    assert Remove(m, j) == Remove(s, i);
    assert Insert(Remove(s, i), i, s[i]) == s by {
      assert Remove(s, i)[..i] == s[..i];
      assert Remove(s, i)[i..] == s[i + 1..];
    }
  }

  /**
   * `a.splice(i, 1)` on an array of fixed length: the elements after `i`
   * shift down one place and the removed element is returned; the last slot
   * is left as it was.
   */
  method SpliceOut(a: array<Item>, i: nat) returns (removed: Item)
    requires i < a.Length
    modifies a
    ensures removed == old(a[i])
    ensures a[..a.Length - 1] == Remove(old(a[..]), i)
  {
    ghost var s := a[..];
    removed := a[i];
    var k := i;
    while k < a.Length - 1
      invariant i <= k <= a.Length - 1
      invariant forall m :: 0 <= m < i ==> a[m] == s[m]
      invariant forall m :: i <= m < k ==> a[m] == s[m + 1]
      invariant forall m :: k <= m < a.Length ==> a[m] == s[m]
    {
      a[k] := a[k + 1];
      k := k + 1;
    }
  }

  /**
   * `a.splice(j, 0, x)` on the same array, whose first `a.Length - 1` slots
   * hold the list: the elements from `j` on shift up one place and `x` is
   * written at `j`.
   */
  method SpliceIn(a: array<Item>, j: nat, x: Item)
    requires j < a.Length
    modifies a
    ensures a[..] == Insert(old(a[..a.Length - 1]), j, x)
  {
    ghost var r := a[..a.Length - 1];
    var k := a.Length - 1;
    while k > j
      invariant j <= k <= a.Length - 1
      invariant forall m :: 0 <= m < k ==> a[m] == r[m]
      invariant forall m :: k < m < a.Length ==> a[m] == r[m - 1]
    {
      a[k] := a[k - 1];
      k := k - 1;
    }
    a[j] := x;
  }

  /**
   * `handleDragEnd`: nothing is emitted without a destination or without an
   * `onReorder` callback; otherwise a copy of `items` is spliced twice (the
   * dragged element out, then back in at the destination) and emitted.
   * `items` itself is not modified.  The drag library only reports indices
   * inside the grid.
   */
  method HandleDragEnd(items: array<Item>, result: DropResult, hasOnReorder: bool) returns (emitted: Option<seq<Item>>)
    requires result.sourceIndex < items.Length
    requires result.destination.Some? ==> result.destination.value < items.Length
    ensures emitted.None? <==> result.destination.None? || !hasOnReorder
    ensures emitted.Some? ==> emitted.value == Moved(items[..], result.sourceIndex, result.destination.value)
  {
    if result.destination.None? || !hasOnReorder {
      return None;
    }
    var n := items.Length;
    // Array.from(items)
    var updated := new Item[n](k requires 0 <= k < n reads items => items[k]);
    assert updated[..] == items[..];
    var removed := SpliceOut(updated, result.sourceIndex);
    SpliceIn(updated, result.destination.value, removed);
    emitted := Some(updated[..]);
  }

  // ---------------------------------------------------------------------------
  // Background

  /** `gradientMapping`: the named colours with a gradient of their own. */
  const GradientMapping: map<string, string> := map[
    "blue" := "linear-gradient(hsl(223, 90%, 50%), hsl(208, 90%, 50%))",
    "purple" := "linear-gradient(hsl(283, 90%, 50%), hsl(268, 90%, 50%))",
    "red" := "linear-gradient(hsl(3, 90%, 50%), hsl(348, 90%, 50%))",
    "indigo" := "linear-gradient(hsl(253, 90%, 50%), hsl(238, 90%, 50%))",
    "orange" := "linear-gradient(hsl(43, 90%, 50%), hsl(28, 90%, 50%))",
    "green" := "linear-gradient(hsl(123, 90%, 40%), hsl(108, 90%, 40%))"
  ]

  /** The CSS `background` value as the source computes it, inherited object members included. */
  datatype Background = Css(value: string) | InheritedMember(key: string)

  /**
   * `getBackgroundStyle` as written: `gradientMapping[color]` is a property
   * read on a plain object literal, so a colour named after a member of
   * `Object.prototype` reads that (truthy) member instead of falling through.
   */
  function BackgroundStyleAsWritten(color: string): (r: Background)
    ensures color in GradientMapping ==> r == Css(GradientMapping[color])
    ensures color !in GradientMapping && color in JsObject.PrototypeKeys ==> r == InheritedMember(color)
    ensures color !in GradientMapping && color !in JsObject.PrototypeKeys ==> r == Css(color)
  {
    match JsObject.Get(GradientMapping, color)
    case Own(g) => Css(g)
    case Inherited(k) => InheritedMember(k)
    case Undefined => Css(color)
  }

  /** The colour "toString" yields a function, not a CSS value. */
  lemma InheritedColourEscapesFallback()
    ensures BackgroundStyleAsWritten("toString") == InheritedMember("toString")
    ensures BackgroundStyleAsWritten("toString") != Css("toString")
  {
    JsObject.ToStringIsInherited();
  }

  /**
   * `getBackgroundStyle` as intended: the gradient of a known colour,
   * otherwise the colour string itself.
   */
  function BackgroundStyle(color: string): (background: string)
    ensures color in GradientMapping ==> background == GradientMapping[color]
    ensures color !in GradientMapping ==> background == color
  {
    if color in GradientMapping then GradientMapping[color] else color
  }

  /** The two agree on every colour that is not an `Object.prototype` member name. */
  lemma BackgroundStyleAgrees(color: string)
    requires color !in JsObject.PrototypeKeys
    ensures BackgroundStyleAsWritten(color) == Css(BackgroundStyle(color))
  {
  }
}

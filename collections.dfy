/** Small generic vocabulary over sequences used by the rest of the model:
    an optional value, duplicate-freedom, first occurrence and counting. */
module Collections {

  datatype Option<+T> = None | Some(value: T)

  /** No element occurs twice. */
  predicate Distinct<T(==)>(xs: seq<T>) {
    forall i, j :: 0 <= i < j < |xs| ==> xs[i] != xs[j]
  }

  /** The position of the first occurrence of `x` in `xs`. */
  function FirstIndex<T(==)>(xs: seq<T>, x: T): (i: nat)
    requires x in xs
    ensures i < |xs| && xs[i] == x
    ensures forall j :: 0 <= j < i ==> xs[j] != x
  {
    if xs[0] == x then 0 else 1 + FirstIndex(xs[1..], x)
  }

  /** Any position that holds `x` and has no `x` before it is the first index. */
  lemma {:induction false} FirstIndexUnique<T>(xs: seq<T>, x: T, i: nat)
    requires i < |xs| && xs[i] == x
    requires forall j :: 0 <= j < i ==> xs[j] != x
    ensures FirstIndex(xs, x) == i
  {
  }

  /** Appending never moves the first occurrence of something already present. */
  lemma {:induction false} FirstIndexAppend<T>(xs: seq<T>, y: T, x: T)
    requires x in xs
    ensures FirstIndex(xs + [y], x) == FirstIndex(xs, x)
  {
    var i := FirstIndex(xs, x);
    FirstIndexUnique(xs + [y], x, i);
  }

  /** Number of occurrences of `x` in `xs`. */
  function CountOf<T(==)>(xs: seq<T>, x: T): (n: nat)
    ensures n <= |xs|
    ensures n == 0 <==> x !in xs
  {
    if |xs| == 0 then 0
    else CountOf(xs[..|xs| - 1], x) + (if xs[|xs| - 1] == x then 1 else 0)
  }

  lemma {:induction false} CountOfAppend<T>(xs: seq<T>, y: T, x: T)
    ensures CountOf(xs + [y], x) == CountOf(xs, x) + (if y == x then 1 else 0)
  {
    assert (xs + [y])[..|xs|] == xs;
  }

  /** In a duplicate-free sequence, a present element occurs exactly once. */
  lemma {:induction false} CountOfDistinct<T>(xs: seq<T>, x: T)
    requires Distinct(xs) && x in xs
    ensures CountOf(xs, x) == 1
  {
    var init := xs[..|xs| - 1];
    assert Distinct(init);
    if xs[|xs| - 1] == x {
      assert forall k :: 0 <= k < |init| ==> init[k] == xs[k] != x;
    } else {
      assert xs == init + [xs[|xs| - 1]];
      CountOfDistinct(init, x);
    }
  }

  /** Taking one more element of a sequence appends that element. */
  lemma {:induction false} TakeSnoc<T>(s: seq<T>, i: nat)
    requires i < |s|
    ensures s[..i + 1] == s[..i] + [s[i]]
  {
    assert s[..i + 1][..i] == s[..i];
  }

  /** A non-empty sequence is its front followed by its last element. */
  lemma {:induction false} DropLastSnoc<T>(s: seq<T>)
    requires |s| > 0
    ensures s[..|s| - 1] + [s[|s| - 1]] == s
  {
    assert (s[..|s| - 1] + [s[|s| - 1]])[..|s| - 1] == s[..|s| - 1];
  }

  lemma {:induction false} AppendAssociative<T>(a: seq<T>, b: seq<T>, c: seq<T>)
    ensures a + b + c == a + (b + c)
  {
  }
}

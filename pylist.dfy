/** Python list operations the core uses: `[x] * n` and `+=`-concatenation
    of a list of lists, with the facts about positions in a concatenation. */
module PyList {
  /** `[x] * n`: `n` copies of `x`; a zero or negative count gives `[]`. */
  function Repeat<T>(x: T, n: int): (r: seq<T>)
    ensures |r| == if n <= 0 then 0 else n
    ensures forall i :: 0 <= i < |r| ==> r[i] == x
  {
    if n <= 0 then [] else seq(n, _ => x)
  }

  /** The lists of `gs` appended one after another. */
  function Concat<T>(gs: seq<seq<T>>): seq<T>
  {
    if gs == [] then [] else Concat(gs[..|gs| - 1]) + gs[|gs| - 1]
  }

  /** `Concat(gs + [g])`: appending one more list. */
  lemma ConcatSnoc<T>(gs: seq<seq<T>>, g: seq<T>)
    ensures Concat(gs + [g]) == Concat(gs) + g
  {
    assert (gs + [g])[..|gs|] == gs;
  }

  /** Total length of the first `g` lists of `gs`: where list `g` starts in `Concat(gs)`. */
  function Offset<T>(gs: seq<seq<T>>, g: nat): nat
    requires g <= |gs|
  {
    if g == 0 then 0 else Offset(gs, g - 1) + |gs[g - 1]|
  }

  lemma {:induction false} ConcatLength<T>(gs: seq<seq<T>>)
    ensures |Concat(gs)| == Offset(gs, |gs|)
  {
    if gs != [] {
      var init := gs[..|gs| - 1];
      ConcatLength(init);
      OffsetOfPrefix(gs, init, |init|);
    }
  }

  /** Offsets depend only on the lists before the position asked about. */
  lemma {:induction false} OffsetOfPrefix<T>(gs: seq<seq<T>>, hs: seq<seq<T>>, g: nat)
    requires g <= |gs| && g <= |hs|
    requires gs[..g] == hs[..g]
    ensures Offset(gs, g) == Offset(hs, g)
  {
    if g > 0 {
      assert gs[..g - 1] == gs[..g][..g - 1] && hs[..g - 1] == hs[..g][..g - 1];
      assert gs[g - 1] == gs[..g][g - 1] == hs[..g][g - 1] == hs[g - 1];
      OffsetOfPrefix(gs, hs, g - 1);
    }
  }

  lemma {:induction false} OffsetMonotone<T>(gs: seq<seq<T>>, g: nat, h: nat)
    requires g <= h <= |gs|
    ensures Offset(gs, g) + (if g < h then |gs[g]| else 0) <= Offset(gs, h)
  {
    if g < h - 1 {
      OffsetMonotone(gs, g, h - 1);
    }
  }

  /** Entry `j` of list `g` sits at position `Offset(gs, g) + j` of the concatenation. */
  lemma {:induction false} ConcatAt<T>(gs: seq<seq<T>>, g: nat, j: nat)
    requires g < |gs| && j < |gs[g]|
    ensures Offset(gs, g) + j < |Concat(gs)|
    ensures Concat(gs)[Offset(gs, g) + j] == gs[g][j]
  {
    var last := |gs| - 1;
    var init := gs[..last];
    ConcatLength(gs);
    ConcatLength(init);
    OffsetOfPrefix(gs, init, last);
    OffsetMonotone(gs, g, |gs|);
    if g < last {
      assert init[g] == gs[g];
      OffsetOfPrefix(gs, init, g);
      ConcatAt(init, g, j);
    }
  }

  /** Every position of the concatenation belongs to exactly one list:
      the one whose offset range contains it. */
  lemma {:induction false} ConcatOwner<T>(gs: seq<seq<T>>, p: nat)
    requires p < |Concat(gs)|
    ensures exists g :: 0 <= g < |gs| && Offset(gs, g) <= p < Offset(gs, g) + |gs[g]|
    ensures forall g, h ::
              (0 <= g < |gs| && 0 <= h < |gs|
               && Offset(gs, g) <= p < Offset(gs, g) + |gs[g]|
               && Offset(gs, h) <= p < Offset(gs, h) + |gs[h]|) ==> g == h
  {
    ConcatLength(gs);
    var last := |gs| - 1;
    if p < Offset(gs, last) {
      var init := gs[..last];
      ConcatLength(init);
      OffsetOfPrefix(gs, init, last);
      ConcatOwner(init, p);
      var g :| 0 <= g < |init| && Offset(init, g) <= p < Offset(init, g) + |init[g]|;
      OffsetOfPrefix(gs, init, g);
      assert Offset(gs, g) <= p < Offset(gs, g) + |gs[g]|;
    } else {
      assert Offset(gs, last) <= p < Offset(gs, last) + |gs[last]|;
    }
    forall g, h | 0 <= g < |gs| && 0 <= h < |gs|
                  && Offset(gs, g) <= p < Offset(gs, g) + |gs[g]|
                  && Offset(gs, h) <= p < Offset(gs, h) + |gs[h]|
      ensures g == h
    {
      if g < h {
        OffsetMonotone(gs, g, h);
      } else if h < g {
        OffsetMonotone(gs, h, g);
      }
    }
  }

  /** Two lists of lists whose members have the same lengths have the same offsets. */
  lemma {:induction false} OffsetSameLengths<T, U>(gs: seq<seq<T>>, hs: seq<seq<U>>, g: nat)
    requires |gs| == |hs| && g <= |gs|
    requires forall i :: 0 <= i < |gs| ==> |gs[i]| == |hs[i]|
    ensures Offset(gs, g) == Offset(hs, g)
  {
    if g > 0 {
      OffsetSameLengths(gs, hs, g - 1);
    }
  }

  predicate StrictlyIncreasing(s: seq<int>) {
    forall i, j :: 0 <= i < j < |s| ==> s[i] < s[j]
  }

  /** Any two sorted lists without duplicates that hold the same values are
      equal, so such a list is determined by its values. */
  lemma {:induction false} SortedSetUnique(a: seq<int>, b: seq<int>)
    requires StrictlyIncreasing(a) && StrictlyIncreasing(b)
    requires forall x :: x in a <==> x in b
    ensures a == b
  {
    if a != [] { assert a[0] in a; }
    if b != [] { assert b[0] in b; }
    if a != [] && b != [] {
      var la, lb := a[|a| - 1], b[|b| - 1];
      assert la in b && lb in a;
      assert la == lb;
      var a', b' := a[..|a| - 1], b[..|b| - 1];
      forall x ensures x in a' ==> x in b' {
        DropLastSubset(a, b, x);
      }
      forall x ensures x in b' ==> x in a' {
        DropLastSubset(b, a, x);
      }
      SortedSetUnique(a', b');
      assert a == a' + [la] && b == b' + [lb];
    }
  }

  /** Between two sorted lists with the same last value and the same
      values, what precedes the last value in one precedes it in the other. */
  lemma DropLastSubset(a: seq<int>, b: seq<int>, x: int)
    requires StrictlyIncreasing(a) && StrictlyIncreasing(b)
    requires a != [] && b != [] && a[|a| - 1] == b[|b| - 1]
    requires forall y :: y in a <==> y in b
    ensures x in a[..|a| - 1] ==> x in b[..|b| - 1]
  {
    if x in a[..|a| - 1] {
      var k :| 0 <= k < |a| - 1 && a[k] == x;
      assert x in a;
      var m :| 0 <= m < |b| && b[m] == x;
      assert m != |b| - 1;
      assert b[..|b| - 1][m] == x;
    }
  }
}

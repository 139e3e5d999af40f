/** TopThreeIndices from utils.go: one pass over a slice of scores that keeps the
    indices of the three largest, best first, in a fixed array of three slots. */
module TopThree {

  import Chunk

  /** Go's `top3`, a `[3]int`; an unused slot holds -1. */
  type Top3 = t: seq<int> | |t| == 3 witness [-1, -1, -1]

  /** A float64 slot value as the source uses it: -Inf until a score is stored. */
  datatype Bound = NegInf | Finite(v: real)

  /** Go's `num > bound` on a finite `num`: everything finite is above -Inf. */
  predicate Above(num: real, bound: Bound) {
    bound.NegInf? || num > bound.v
  }

  /** Index `a` ranks before index `b`: its score is larger, or the scores are equal
      and `a` comes first (a later equal score never displaces an earlier one). */
  predicate Ahead(nums: seq<real>, a: int, b: int) {
    && 0 <= a < |nums| && 0 <= b < |nums|
    && (nums[a] > nums[b] || (nums[a] == nums[b] && a < b))
  }

  /** `t` lists the best `min(3, n)` indices among the first `n` scores, best first,
      and pads the rest with -1; every index it leaves out ranks after its last. */
  predicate IsTopOf(nums: seq<real>, n: nat, t: seq<int>)
    requires n <= |nums|
  {
    var k := Chunk.Min(3, n);
    && |t| == 3
    && (forall s :: 0 <= s < k ==> 0 <= t[s] < n)
    && (forall s :: k <= s < 3 ==> t[s] == -1)
    && (forall s :: 0 <= s < k - 1 ==> Ahead(nums, t[s], t[s + 1]))
    && (forall j :: 0 <= j < n && j !in t ==> k == 3 && Ahead(nums, t[2], j))
  }

  /** What TopThreeIndices promises about the whole slice. */
  predicate IsTopThree(nums: seq<real>, t: seq<int>) {
    IsTopOf(nums, |nums|, t)
  }

  /** The slot values are the scores at the slot indices, -Inf for an empty slot. */
  predicate Mirrors(nums: seq<real>, t: seq<int>, v: seq<Bound>) {
    && |t| == 3 && |v| == 3
    && forall s :: 0 <= s < 3 ==>
         v[s] == if 0 <= t[s] < |nums| then Finite(nums[t[s]]) else NegInf
  }

  /** The three slots after `x` moves into slot `p`: the slots from `p` on shift
      down one and the last drops out. */
  function Shift<T>(t: seq<T>, p: nat, x: T): (r: seq<T>)
    requires |t| == 3 && p < 3
    ensures |r| == 3 && r[p] == x
    ensures forall s :: 0 <= s < p ==> r[s] == t[s]
    ensures forall s :: p < s < 3 ==> r[s] == t[s - 1]
  {
    t[..p] + [x] + t[p..2]
  }

  /** TopThreeIndices (utils.go:50-68). */
  method TopThreeIndices(nums: seq<real>) returns (top: Top3)
    ensures IsTopThree(nums, top)
  {
    var topIndices := new int[3](_ => -1);
    var topValues := new Bound[3](_ => NegInf);
    for i := 0 to |nums|
      invariant IsTopOf(nums, i, topIndices[..])
      invariant Mirrors(nums, topIndices[..], topValues[..])
    {
      var num := nums[i];
      ghost var t, v := topIndices[..], topValues[..];
      ghost var slot := 3;
      if Above(num, topValues[0]) {
        topValues[2], topIndices[2] := topValues[1], topIndices[1];
        topValues[1], topIndices[1] := topValues[0], topIndices[0];
        topValues[0], topIndices[0] := Finite(num), i;
        slot := 0;
      } else if Above(num, topValues[1]) {
        topValues[2], topIndices[2] := topValues[1], topIndices[1];
        topValues[1], topIndices[1] := Finite(num), i;
        slot := 1;
      } else if Above(num, topValues[2]) {
        topValues[2], topIndices[2] := Finite(num), i;
        slot := 2;
      }
      if slot < 3 {
        assert topIndices[..] == Shift(t, slot, i);
        assert topValues[..] == Shift(v, slot, Finite(num));
        Insert(nums, i, t, v, slot);
      } else {
        Skip(nums, i, t, v);
      }
    }
    top := topIndices[..];
  }

  // ---------------------------------------------------------------------------
  // The order

  lemma AheadTransitive(nums: seq<real>, a: int, b: int, c: int)
    requires Ahead(nums, a, b) && Ahead(nums, b, c)
    ensures Ahead(nums, a, c)
  {
  }

  /** The order is strict: no index ranks before itself or before one that ranks
      before it, and any two different indices are ordered one way. */
  lemma AheadStrictTotal(nums: seq<real>, a: int, b: int)
    requires 0 <= a < |nums| && 0 <= b < |nums|
    ensures !(Ahead(nums, a, b) && Ahead(nums, b, a))
    ensures a != b ==> Ahead(nums, a, b) || Ahead(nums, b, a)
  {
  }

  // ---------------------------------------------------------------------------
  // One step of the loop

  /** Score `i` goes into slot `p`, the first slot whose value it exceeds: the
      promise extends to one more score and the values still mirror the indices. */
  lemma Insert(nums: seq<real>, i: nat, t: seq<int>, v: seq<Bound>, p: nat)
    requires i < |nums| && IsTopOf(nums, i, t) && Mirrors(nums, t, v) && p < 3
    requires forall s :: 0 <= s < p ==> !Above(nums[i], v[s])
    requires Above(nums[i], v[p])
    ensures IsTopOf(nums, i + 1, Shift(t, p, i))
    ensures Mirrors(nums, Shift(t, p, i), Shift(v, p, Finite(nums[i])))
  {
    var t' := Shift(t, p, i);
    var k, k' := Chunk.Min(3, i), Chunk.Min(3, i + 1);
    forall s | 0 <= s < k' - 1
      ensures Ahead(nums, t'[s], t'[s + 1])
    {
      if s + 1 == p {
        assert t'[s] == t[s];
      } else if s == p {
        assert t'[s + 1] == t[s];
      } else if s > p {
        assert t'[s] == t[s - 1] && t'[s + 1] == t[s];
      }
    }
    forall j | 0 <= j < i + 1 && j !in t'
      ensures k' == 3 && Ahead(nums, t'[2], j)
    {
      assert j != i;
      if j in t {
        // Only the index in the last slot drops out.
        var s :| 0 <= s < 3 && t[s] == j;
        forall q | 0 <= q < 2
          ensures t[q] in t'
        {
          if q < p {
            assert t'[q] == t[q];
          } else {
            assert t'[q + 1] == t[q];
          }
        }
        assert s == 2 && p <= 2 && k == 3;
        if p == 2 {
          assert t'[2] == i;
        } else {
          assert t'[2] == t[1];
        }
      } else {
        assert k == 3 && Ahead(nums, t[2], j);
        if p == 2 {
          AheadTransitive(nums, i, t[2], j);
        } else {
          assert t'[2] == t[1];
          AheadTransitive(nums, t[1], t[2], j);
        }
      }
    }
  }

  /** A score that exceeds no slot changes nothing: it ranks after the last. */
  lemma Skip(nums: seq<real>, i: nat, t: seq<int>, v: seq<Bound>)
    requires i < |nums| && IsTopOf(nums, i, t) && Mirrors(nums, t, v)
    requires forall s :: 0 <= s < 3 ==> !Above(nums[i], v[s])
    ensures IsTopOf(nums, i + 1, t)
  {
    assert Ahead(nums, t[2], i);
  }

  // ---------------------------------------------------------------------------
  // What the result means

  /** Every selected index ranks before every index after it in the result and
      every index left out. */
  lemma SlotBeatsRest(nums: seq<real>, t: seq<int>, s: nat, j: int)
    requires IsTopThree(nums, t) && s < Chunk.Min(3, |nums|)
    requires 0 <= j < |nums| && j !in t[..s + 1]
    ensures Ahead(nums, t[s], j)
  {
    var k := Chunk.Min(3, |nums|);
    if j in t {
      var r :| 0 <= r < 3 && t[r] == j;
      assert s < r < k;
      if r == s + 2 {
        AheadTransitive(nums, t[s], t[s + 1], j);
      }
    } else {
      if s == 0 {
        AheadTransitive(nums, t[0], t[1], t[2]);
      }
      if s < 2 {
        AheadTransitive(nums, t[s], t[2], j);
      }
    }
  }

  /** The selected indices are distinct, their scores do not increase, the
      number selected is `min(3, n)`, and no score left out exceeds the last one
      selected (an equal one left out comes later). */
  lemma TopThreeProperties(nums: seq<real>, t: seq<int>)
    requires IsTopThree(nums, t)
    ensures var k := Chunk.Min(3, |nums|);
      && (forall s :: 0 <= s < k ==> 0 <= t[s] < |nums|)
      && (forall s :: k <= s < 3 ==> t[s] == -1)
      && (forall s, r :: 0 <= s < r < k ==> t[s] != t[r] && nums[t[s]] >= nums[t[r]])
      && (forall j :: 0 <= j < |nums| && j !in t ==>
            nums[j] <= nums[t[2]] && (nums[j] == nums[t[2]] ==> t[2] < j))
  {
    var k := Chunk.Min(3, |nums|);
    if k == 3 {
      AheadTransitive(nums, t[0], t[1], t[2]);
    }
    forall s, r | 0 <= s < r < k
      ensures t[s] != t[r] && nums[t[s]] >= nums[t[r]]
    {
      assert Ahead(nums, t[s], t[r]);
    }
  }

  /** A score strictly above the one in slot `s` belongs to an index in an
      earlier slot. */
  lemma HigherRanksFirst(nums: seq<real>, t: seq<int>, s: nat, j: int)
    requires IsTopThree(nums, t) && s < 3 && 0 <= t[s]
    requires 0 <= j < |nums| && nums[j] > nums[t[s]]
    ensures j in t[..s]
  {
    assert s < Chunk.Min(3, |nums|);
    if j !in t[..s] {
      assert j != t[s];
      SlotBeatsRest(nums, t, s, j);
    }
  }

  /** The result is determined by the scores: two lists that both satisfy the
      promise are the same list. */
  lemma TopThreeUnique(nums: seq<real>, t: seq<int>, u: seq<int>)
    requires IsTopThree(nums, t) && IsTopThree(nums, u)
    ensures t == u
  {
    var k := Chunk.Min(3, |nums|);
    if k > 0 {
      SameSlot(nums, t, u, k - 1);
      assert t == t[..k] + t[k..] && u == u[..k] + u[k..];
    }
    assert t[k..] == u[k..];
  }

  /** Induction over the slots for TopThreeUnique. */
  lemma {:induction false} SameSlot(nums: seq<real>, t: seq<int>, u: seq<int>, s: nat)
    requires IsTopThree(nums, t) && IsTopThree(nums, u) && s < Chunk.Min(3, |nums|)
    ensures t[..s + 1] == u[..s + 1]
    decreases s
  {
    if s > 0 {
      SameSlot(nums, t, u, s - 1);
      assert t[..s] == t[..s - 1 + 1];
    }
    if t[s] != u[s] {
      SlotsDistinct(nums, t, s);
      SlotsDistinct(nums, u, s);
      SlotBeatsRest(nums, t, s, u[s]);
      SlotBeatsRest(nums, u, s, t[s]);
    }
    assert t[..s + 1] == t[..s] + [t[s]];
    assert u[..s + 1] == u[..s] + [u[s]];
  }

  /** No index fills two of the used slots. */
  lemma SlotsDistinct(nums: seq<real>, t: seq<int>, s: nat)
    requires IsTopThree(nums, t) && s < Chunk.Min(3, |nums|)
    ensures t[s] !in t[..s]
  {
    if s == 2 {
      AheadTransitive(nums, t[0], t[1], t[2]);
    }
  }

  // ---------------------------------------------------------------------------
  // The cases of TestTopThreeIndices (utils_test.go:46-52): any result that keeps
  // the promise is the expected one.

  lemma TopThreeOfSix(nums: seq<real>, t: seq<int>)
    requires nums == [3.2, 5.5, 1.1, 7.8, 4.6, 6.3] && IsTopThree(nums, t)
    ensures t == [3, 5, 1]
  {
    assert IsTopThree(nums, [3, 5, 1]);
    TopThreeUnique(nums, t, [3, 5, 1]);
  }

  lemma TopThreeAscending(nums: seq<real>, t: seq<int>)
    requires nums == [1.0, 2.0, 3.0] && IsTopThree(nums, t)
    ensures t == [2, 1, 0]
  {
    assert IsTopThree(nums, [2, 1, 0]);
    TopThreeUnique(nums, t, [2, 1, 0]);
  }

  lemma TopThreeOfTwo(nums: seq<real>, t: seq<int>)
    requires nums == [9.0, 1.0] && IsTopThree(nums, t)
    ensures t == [0, 1, -1]
  {
    assert IsTopThree(nums, [0, 1, -1]);
    TopThreeUnique(nums, t, [0, 1, -1]);
  }

  lemma TopThreeOfOne(nums: seq<real>, t: seq<int>)
    requires nums == [2.2] && IsTopThree(nums, t)
    ensures t == [0, -1, -1]
  {
    assert IsTopThree(nums, [0, -1, -1]);
    TopThreeUnique(nums, t, [0, -1, -1]);
  }

  lemma TopThreeOfNone(nums: seq<real>, t: seq<int>)
    requires nums == [] && IsTopThree(nums, t)
    ensures t == [-1, -1, -1]
  {
    assert IsTopThree(nums, [-1, -1, -1]);
    TopThreeUnique(nums, t, [-1, -1, -1]);
  }

  lemma TopThreeNegative(nums: seq<real>, t: seq<int>)
    requires nums == [-5.0, -1.0, -3.0, -2.0] && IsTopThree(nums, t)
    ensures t == [1, 3, 2]
  {
    assert IsTopThree(nums, [1, 3, 2]);
    TopThreeUnique(nums, t, [1, 3, 2]);
  }

  /** Equal scores keep their order in the slice. */
  lemma TopThreeDuplicates(nums: seq<real>, t: seq<int>)
    requires nums == [5.0, 5.0, 5.0, 1.0] && IsTopThree(nums, t)
    ensures t == [0, 1, 2]
  {
    assert IsTopThree(nums, [0, 1, 2]);
    TopThreeUnique(nums, t, [0, 1, 2]);
  }
}

/** Picking some elements of a list, in its order. */
module Picks {

  /** `picked` are the elements at these places of `all`, in the same order. */
  ghost predicate PickedAt<T>(picked: seq<T>, all: seq<T>, places: seq<nat>) {
    && |places| == |picked|
    && (forall i :: 0 <= i < |picked| ==> places[i] < |all| && all[places[i]] == picked[i])
    && forall i, j :: 0 <= i < j < |places| ==> places[i] < places[j]
  }

  /** Places in a list that follows n other elements. */
  function Behind(n: nat, places: seq<nat>): (r: seq<nat>)
    ensures |r| == |places| && forall i :: 0 <= i < |places| ==> r[i] == places[i] + n
    ensures forall j: nat :: j in r <==> j >= n && j - n in places
  {
    var r := seq(|places|, i requires 0 <= i < |places| => places[i] + n);
    assert forall i :: 0 <= i < |places| ==> r[i] - n == places[i];
    r
  }

  /** The places in a list, from those in its tail and whether its head is picked. */
  function Places(first: bool, rest: seq<nat>): (r: seq<nat>)
    ensures |r| == |rest| + if first then 1 else 0
    ensures forall j: nat :: j in r <==> if j == 0 then first else j - 1 in rest
  {
    if first then [0] + Behind(1, rest) else Behind(1, rest)
  }

  lemma NothingPicked<T>()
    ensures PickedAt<T>([], [], [])
  {
  }

  lemma OneElement<T>(x: T)
    ensures PickedAt<T>([], [x], []) && PickedAt([x], [x], [0])
  {
  }

  lemma PickedOneMore<T>(picked: seq<T>, all: seq<T>, rest: seq<nat>, first: bool)
    requires all != [] && PickedAt(picked, all[1..], rest)
    ensures PickedAt(if first then [all[0]] + picked else picked, all, Places(first, rest))
  {
    hide PickedAt, Behind;
    OneElement(all[0]);
    assert all == [all[0]] + all[1..];
    if first {
      PickedFromBoth([all[0]], picked, [all[0]], all[1..], [0], rest);
    } else {
      PickedFromBoth([], picked, [all[0]], all[1..], [], rest);
      assert [] + picked == picked && [] + Behind(1, rest) == Behind(1, rest);
    }
  }

  lemma PickedFromBoth<T>(a: seq<T>, b: seq<T>, x: seq<T>, y: seq<T>, p: seq<nat>, q: seq<nat>)
    requires PickedAt(a, x, p) && PickedAt(b, y, q)
    ensures PickedAt(a + b, x + y, p + Behind(|x|, q))
  {
    var places := p + Behind(|x|, q);
    forall i | 0 <= i < |a + b| ensures places[i] < |x + y| && (x + y)[places[i]] == (a + b)[i] {
      assert i < |a| ==> (a + b)[i] == a[i] && places[i] == p[i];
      assert i >= |a| ==> (a + b)[i] == b[i - |a|] && places[i] == q[i - |a|] + |x|;
    }
    forall i, j | 0 <= i < j < |places| ensures places[i] < places[j] {
      assert i < |p| ==> places[i] == p[i] < |x|;
      assert j >= |p| ==> places[j] == q[j - |p|] + |x|;
      assert i >= |p| ==> places[i] == q[i - |p|] + |x|;
    }
  }
}

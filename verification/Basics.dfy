/** Types shared by the components. */
module Basics {

  datatype Option<+T> = None | Some(value: T)

  const TWO_32: int := 0x1_0000_0000
  const TWO_64: int := 0x1_0000_0000_0000_0000

  type Uint32 = x: int | 0 <= x < TWO_32
  type Uint64 = x: int | 0 <= x < TWO_64

  /** Shard identifiers are 32-bit; the largest one is the metachain. */
  type Shard = Uint32

  const METACHAIN: Shard := 0xFFFF_FFFF

  /** Whether a request needs historical data or recent data only. */
  datatype Availability = All | Recent

  ghost function ShardsBelow(n: nat): (below: set<Shard>)
    requires n <= TWO_32
    ensures forall s: Shard :: s in below <==> s < n
  {
    if n == 0 then {} else ShardsBelow(n - 1) + {n - 1}
  }

  ghost function AllShards(): (all: set<Shard>)
    ensures forall s: Shard :: s in all
  {
    ShardsBelow(TWO_32)
  }

  /** A rearrangement, split where it has the last element. */
  lemma SplitAtLast<T>(init: seq<T>, last: T, rearranged: seq<T>) returns (front: seq<T>, back: seq<T>)
    requires multiset(init + [last]) == multiset(rearranged)
    ensures rearranged == front + [last] + back && multiset(front + back) == multiset(init)
  {
    assert last in multiset(rearranged);
    var i :| 0 <= i < |rearranged| && rearranged[i] == last;
    front, back := rearranged[..i], rearranged[i + 1..];
    assert rearranged == front + [last] + back;
    assert multiset(front + back) == multiset(rearranged) - multiset{last};
    assert multiset(init) == multiset(init + [last]) - multiset{last};
  }
}

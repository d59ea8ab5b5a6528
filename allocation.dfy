/** What construction hands out: the holders are visited in list order, each
    `(address, count)` pair is given the next `count` ids of one global
    counter, and repeated addresses accumulate. These functions describe the
    result of that walk for any prefix of the holder list; the registry's
    constructor is proved to produce it. */
module Allocation {
  import opened Supporting
  import opened ArrayOps
  import opened Holdings

  /** The number of ids granted by all pairs, which is also the id the next
      pair would start at. */
  function TotalCount(holders: seq<Holder>): nat
  {
    if holders == [] then 0
    else TotalCount(holders[..|holders| - 1]) + holders[|holders| - 1].count
  }

  /** The sum of the counts of the pairs that name `a`. */
  function CountFor(holders: seq<Holder>, a: Address): nat
  {
    if holders == [] then 0
    else
      var last := holders[|holders| - 1];
      CountFor(holders[..|holders| - 1], a) + (if last.address == a then last.count else 0)
  }

  /** The ids granted to `a`: the ranges of the pairs naming `a`, concatenated
      in pair order. */
  function Allocated(holders: seq<Holder>, a: Address): seq<nat>
  {
    if holders == [] then []
    else
      var prefix, last := holders[..|holders| - 1], holders[|holders| - 1];
      Allocated(prefix, a) + (if last.address == a then Consecutive(TotalCount(prefix), last.count) else [])
  }

  /** The address of the pair whose range contains id `i`. */
  function OwnerAt(holders: seq<Holder>, i: nat): Address
    requires i < TotalCount(holders)
  {
    var prefix, last := holders[..|holders| - 1], holders[|holders| - 1];
    if TotalCount(prefix) <= i then last.address else OwnerAt(prefix, i)
  }

  /** The addresses named by some pair, count 0 included. */
  ghost function Addresses(holders: seq<Holder>): set<Address>
  {
    set k | 0 <= k < |holders| :: holders[k].address
  }

  /** An address no pair names is granted nothing. */
  lemma {:induction false} UnnamedGetsNothing(holders: seq<Holder>, a: Address)
    requires a !in Addresses(holders)
    ensures Allocated(holders, a) == []
  {
    if holders != [] {
      var prefix := holders[..|holders| - 1];
      assert Addresses(prefix) <= Addresses(holders);
      UnnamedGetsNothing(prefix, a);
    }
  }

  /** A prefix of the holders never grants more ids than the whole list. */
  lemma {:induction false} PrefixCount(holders: seq<Holder>, j: nat)
    requires j <= |holders|
    ensures TotalCount(holders[..j]) <= TotalCount(holders)
  {
    if j < |holders| {
      var prefix := holders[..|holders| - 1];
      assert prefix[..j] == holders[..j];
      PrefixCount(prefix, j);
    } else {
      assert holders[..j] == holders;
    }
  }

  /** Pair `k` owns exactly the ids from the sum of the earlier counts up to,
      but not including, that sum plus its own count. */
  lemma {:induction false} OwnerAtPair(holders: seq<Holder>, k: nat, i: nat)
    requires k < |holders|
    requires TotalCount(holders[..k]) <= i < TotalCount(holders[..k + 1])
    ensures i < TotalCount(holders)
    ensures OwnerAt(holders, i) == holders[k].address
  {
    var n := |holders| - 1;
    var prefix := holders[..n];
    PrefixCount(holders, k + 1);
    assert holders[..k + 1][..k] == holders[..k];
    if k < n {
      assert prefix[..k] == holders[..k] && prefix[..k + 1] == holders[..k + 1];
      PrefixCount(prefix, k + 1);
      OwnerAtPair(prefix, k, i);
    } else {
      assert holders[..k + 1] == holders;
    }
  }

  /** Each address is granted as many ids as the counts of its pairs add up to. */
  lemma {:induction false} AllocatedCount(holders: seq<Holder>, a: Address)
    ensures |Allocated(holders, a)| == CountFor(holders, a)
  {
    if holders != [] {
      AllocatedCount(holders[..|holders| - 1], a);
    }
  }

  /** An id is granted to `a` exactly when it was allocated and the pair whose
      range contains it names `a`; and no id is granted twice to `a`. */
  lemma {:induction false} AllocatedOwner(holders: seq<Holder>, a: Address)
    ensures forall i: nat :: i in Allocated(holders, a) <==> i < TotalCount(holders) && OwnerAt(holders, i) == a
    ensures Distinct(Allocated(holders, a))
  {
    if holders != [] {
      var prefix, last := holders[..|holders| - 1], holders[|holders| - 1];
      AllocatedOwner(prefix, a);
      var earlier := Allocated(prefix, a);
      var granted := if last.address == a then Consecutive(TotalCount(prefix), last.count) else [];
      assert Allocated(holders, a) == earlier + granted;
      forall i: nat
        ensures i in earlier + granted <==> i < TotalCount(holders) && OwnerAt(holders, i) == a
      {
        if i in earlier {
          assert i < TotalCount(prefix);
        }
      }
      forall p, q | 0 <= p < q < |earlier + granted|
        ensures (earlier + granted)[p] != (earlier + granted)[q]
      {
        if q >= |earlier| && p < |earlier| {
          assert earlier[p] in earlier;
          assert (earlier + granted)[q] in granted;
        }
      }
    }
  }

  /** The lists construction leaves, pair by pair: each pair appends its
      fresh ids to its address's list, creating the list if there was none. */
  function AllocatedMap(holders: seq<Holder>): map<Address, seq<nat>>
  {
    if holders == [] then map[]
    else
      var prefix, last := holders[..|holders| - 1], holders[|holders| - 1];
      var data := AllocatedMap(prefix);
      data[last.address := Held(data, last.address) + Consecutive(TotalCount(prefix), last.count)]
  }

  /** The reverse map construction leaves, pair by pair: each pair records its
      fresh ids as its address's. */
  function OwnerMap(holders: seq<Holder>): map<nat, Address>
  {
    if holders == [] then map[]
    else
      var prefix, last := holders[..|holders| - 1], holders[|holders| - 1];
      OwnerMap(prefix) + Grant(TotalCount(prefix), last.count, last.address)
  }

  /** The lists construction leaves have an entry for exactly the named
      addresses, and each holds the ids allocated to its address. */
  lemma {:induction false} AllocatedMapIsAllocated(holders: seq<Holder>)
    ensures AllocatedMap(holders).Keys == Addresses(holders)
    ensures forall a :: a in AllocatedMap(holders) ==> AllocatedMap(holders)[a] == Allocated(holders, a)
  {
    if holders != [] {
      var prefix, last := holders[..|holders| - 1], holders[|holders| - 1];
      AllocatedMapIsAllocated(prefix);
      assert holders == prefix + [last];
      assert Addresses(holders) == Addresses(prefix) + {last.address};
      if last.address !in Addresses(prefix) {
        UnnamedGetsNothing(prefix, last.address);
      }
    }
  }

  /** The reverse map construction leaves covers exactly the ids allocated and
      gives each the address of the pair whose range contains it. */
  lemma {:induction false} OwnerMapIsOwnerAt(holders: seq<Holder>)
    ensures forall i: nat :: i in OwnerMap(holders) <==> i < TotalCount(holders)
    ensures forall i: nat :: i < TotalCount(holders) ==> OwnerMap(holders)[i] == OwnerAt(holders, i)
  {
    if holders != [] {
      var prefix, last := holders[..|holders| - 1], holders[|holders| - 1];
      OwnerMapIsOwnerAt(prefix);
      GrantRange(TotalCount(prefix), last.count, last.address);
    }
  }

  /** Visiting pair `k` extends the counter, the lists and the reverse map
      built by the pairs before it. */
  lemma Step(holders: seq<Holder>, k: nat)
    requires k < |holders|
    ensures TotalCount(holders[..k + 1]) == TotalCount(holders[..k]) + holders[k].count
    ensures AllocatedMap(holders[..k + 1]) ==
            var data := AllocatedMap(holders[..k]);
            data[holders[k].address := Held(data, holders[k].address) +
                                       Consecutive(TotalCount(holders[..k]), holders[k].count)]
    ensures OwnerMap(holders[..k + 1]) ==
            OwnerMap(holders[..k]) + Grant(TotalCount(holders[..k]), holders[k].count, holders[k].address)
  {
    assert holders[..k + 1][..k] == holders[..k];
  }

  /** After construction an address's list holds as many ids as the counts of
      the pairs naming it add up to: repeated addresses accumulate. */
  lemma ConstructedBalance(holders: seq<Holder>, a: Address)
    ensures |Held(AllocatedMap(holders), a)| == CountFor(holders, a)
  {
    AllocatedMapIsAllocated(holders);
    AllocatedCount(holders, a);
    if a !in Addresses(holders) {
      UnnamedGetsNothing(holders, a);
    }
  }
}

/** The registry's two maps as values: `data`, from an address to the ids it
    holds, and the reverse map from an id to its owner. This module states
    when the two agree, what construction and a transfer do to them, and what
    follows from their agreement (each id held exactly once, balances adding
    up to the number of ids allocated). */
module Holdings {
  import opened Supporting
  import opened ArrayOps

  /** `data.get(a) || []`: the ids `a` holds, none when it has no entry. */
  function Held(data: map<Address, seq<nat>>, a: Address): seq<nat>
  {
    if a in data then data[a] else []
  }

  /** The two maps agree: the reverse map covers exactly the ids below `n`,
      no list repeats an id, every listed id names the list's address as its
      owner, and every id is listed under its owner. */
  ghost predicate Consistent(data: map<Address, seq<nat>>, owners: map<nat, Address>, n: nat)
  {
    && (forall i: nat :: i in owners <==> i < n)
    && (forall a :: a in data ==> Distinct(data[a]))
    && (forall a, i :: a in data && i in data[a] ==> i in owners && owners[i] == a)
    && (forall i :: i in owners ==> owners[i] in data && i in data[owners[i]])
  }

  /** An address's list holds exactly the ids the reverse map gives it, so its
      length is its number of tokens. */
  lemma HeldAreTokens(data: map<Address, seq<nat>>, owners: map<nat, Address>, n: nat, a: Address)
    requires Consistent(data, owners, n)
    ensures Elements(Held(data, a)) == TokensIn(owners, a)
    ensures |Held(data, a)| == |TokensIn(owners, a)|
  {
    if a in data {
      DistinctCard(data[a]);
    }
    assert Elements(Held(data, a)) == TokensIn(owners, a);
  }

  /** Every allocated id occurs exactly once across all lists: once in its
      owner's list and nowhere else. */
  lemma ExactlyOnce(data: map<Address, seq<nat>>, owners: map<nat, Address>, n: nat, i: nat, a: Address)
    requires Consistent(data, owners, n) && i < n
    ensures multiset(Held(data, a))[i] == if owners[i] == a then 1 else 0
  {
    if a in data {
      DistinctOccurrences(data[a], i);
    }
  }

  /** With no entry in `data` there can be no allocated id. */
  lemma NoEntriesNoTokens(data: map<Address, seq<nat>>, owners: map<nat, Address>, n: nat)
    requires Consistent(data, owners, n)
    ensures |data| == 0 ==> n == 0
  {
    if n > 0 {
      assert 0 in owners;
      assert owners[0] in data;
    }
  }

  /** The lists after `id` is spliced out of `owner`'s list and pushed onto
      `to`'s. When `to` is `owner` the two lists are one array, so the id only
      moves to the end of it. */
  function Moved(data: map<Address, seq<nat>>, owner: Address, to: Address, id: nat): map<Address, seq<nat>>
    requires owner in data
  {
    var ownerAssets := Without(data[owner], id);
    if to == owner then data[owner := ownerAssets + [id]]
    else data[owner := ownerAssets][to := Held(data, to) + [id]]
  }

  /** Splicing the id out at its index and pushing it onto the receiving list
      (the same list when `to` is `owner`) yields `Moved`. */
  lemma SpliceAndPush(data: map<Address, seq<nat>>, owner: Address, to: Address, id: nat, index: nat)
    requires owner in data && Distinct(data[owner])
    requires index < |data[owner]| && data[owner][index] == id
    ensures var ownerAssets := data[owner][..index] + data[owner][index + 1..];
            var receiverAssets := (if to == owner then ownerAssets else Held(data, to)) + [id];
            data[owner := ownerAssets][to := receiverAssets] == Moved(data, owner, to, id)
  {
    SpliceIsWithout(data[owner], index);
  }

  /** Moving an id to `to` keeps the maps in agreement. */
  lemma MoveKeepsConsistent(data: map<Address, seq<nat>>, owners: map<nat, Address>, n: nat, id: nat, to: Address)
    requires Consistent(data, owners, n) && id in owners
    ensures Consistent(Moved(data, owners[id], to, id), owners[id := to], n)
  {
    MoveKeepsDistinct(data, owners, n, id, to);
    MoveKeepsAgreement(data, owners, n, id, to);
  }

  /** After a move no list repeats an id. */
  lemma MoveKeepsDistinct(data: map<Address, seq<nat>>, owners: map<nat, Address>, n: nat, id: nat, to: Address)
    requires Consistent(data, owners, n) && id in owners
    ensures var data' := Moved(data, owners[id], to, id);
            forall a :: a in data' ==> Distinct(data'[a])
  {
  }

  /** After a move every listed id names its list's address as owner, and
      every id is listed under its owner. */
  lemma MoveKeepsAgreement(data: map<Address, seq<nat>>, owners: map<nat, Address>, n: nat, id: nat, to: Address)
    requires Consistent(data, owners, n) && id in owners
    ensures var data', owners' := Moved(data, owners[id], to, id), owners[id := to];
            && (forall a, i :: a in data' && i in data'[a] ==> i in owners' && owners'[i] == a)
            && (forall i :: i in owners' ==> owners'[i] in data' && i in data'[owners'[i]])
  {
  }

  /** The reverse-map entries recording the fresh ids `n .. n + count - 1` as
      `address`'s. */
  function Grant(n: nat, count: nat, address: Address): map<nat, Address>
  {
    if count == 0 then map[] else Grant(n, count - 1, address)[n + count - 1 := address]
  }

  /** A grant covers exactly the ids `n .. n + count - 1`, all as `address`'s. */
  lemma {:induction false} GrantRange(n: nat, count: nat, address: Address)
    ensures forall i: nat :: i in Grant(n, count, address) <==> n <= i < n + count
    ensures forall i :: i in Grant(n, count, address) ==> Grant(n, count, address)[i] == address
  {
    if count > 0 {
      GrantRange(n, count - 1, address);
    }
  }

  /** Recording one more fresh id extends the grant by that id. */
  lemma GrantNext(owners: map<nat, Address>, n: nat, count: nat, address: Address)
    ensures (owners + Grant(n, count, address))[n + count := address] == owners + Grant(n, count + 1, address)
  {
  }

  /** Granting the fresh ids `n .. n + count - 1` to `address` (appended to
      its list, recorded in the reverse map) keeps the maps in agreement. */
  lemma GrantKeepsConsistent(data: map<Address, seq<nat>>, owners: map<nat, Address>, n: nat,
                             address: Address, count: nat)
    requires Consistent(data, owners, n)
    ensures Consistent(data[address := Held(data, address) + Consecutive(n, count)],
                       owners + Grant(n, count, address), n + count)
  {
    GrantRange(n, count, address);
    GrantKeepsDistinct(data, owners, n, address, count);
    GrantKeepsAgreement(data, owners, n, address, count);
  }

  /** Appending fresh ids to a list keeps it free of repeats. */
  lemma GrantKeepsDistinct(data: map<Address, seq<nat>>, owners: map<nat, Address>, n: nat,
                           address: Address, count: nat)
    requires Consistent(data, owners, n)
    ensures Distinct(Held(data, address) + Consecutive(n, count))
  {
    var earlier, granted := Held(data, address), Consecutive(n, count);
    assert Distinct(earlier);
    forall p, q | 0 <= p < q < |earlier + granted| ensures (earlier + granted)[p] != (earlier + granted)[q] {
      if q < |earlier| {
        assert (earlier + granted)[p] == earlier[p] && (earlier + granted)[q] == earlier[q];
      } else if p < |earlier| {
        assert earlier[p] in data[address];
        assert earlier[p] in owners;
        assert granted[q - |earlier|] in granted;
      } else {
        assert (earlier + granted)[p] == granted[p - |earlier|];
        assert (earlier + granted)[q] == granted[q - |earlier|];
      }
    }
  }

  /** After a grant every listed id names its list's address as owner, and
      every id is listed under its owner. */
  lemma GrantKeepsAgreement(data: map<Address, seq<nat>>, owners: map<nat, Address>, n: nat,
                            address: Address, count: nat)
    requires Consistent(data, owners, n)
    ensures var data', owners' := data[address := Held(data, address) + Consecutive(n, count)],
                                  owners + Grant(n, count, address);
            && (forall a, i :: a in data' && i in data'[a] ==> i in owners' && owners'[i] == a)
            && (forall i :: i in owners' ==> owners'[i] in data' && i in data'[owners'[i]])
  {
    var earlier, granted := Held(data, address), Consecutive(n, count);
    var data', owners' := data[address := earlier + granted], owners + Grant(n, count, address);
    GrantRange(n, count, address);
    forall a, i | a in data' && i in data'[a] ensures i in owners' && owners'[i] == a {
      if a != address || i in earlier {
        assert a in data && i in data[a];
        assert i in owners && owners[i] == a;
        assert i < n;
      } else {
        assert i in granted;
        assert n <= i < n + count;
      }
    }
    forall i | i in owners' ensures owners'[i] in data' && i in data'[owners'[i]] {
      if i < n {
        assert i in owners;
      } else {
        assert i in granted;
      }
    }
  }

  /** A key of a non-empty map, chosen once so that every use agrees. */
  ghost function Pick(data: map<Address, seq<nat>>): Address
    requires data != map[]
  {
    var a :| a in data; a
  }

  /** The sum of the lengths of all lists. */
  ghost function TotalHeld(data: map<Address, seq<nat>>): nat
    decreases |data|
  {
    if data == map[] then 0
    else
      var a := Pick(data);
      |data[a]| + TotalHeld(data - {a})
  }

  /** The ids whose owner is one of `holders`. */
  ghost function OwnedBy(owners: map<nat, Address>, holders: set<Address>): set<nat>
  {
    set i | i in owners && owners[i] in holders
  }

  /** When every list is as long as its address's share of the reverse map,
      the lists add up to the ids owned by their addresses. */
  lemma {:induction false} TotalHeldOfPart(owners: map<nat, Address>, part: map<Address, seq<nat>>)
    requires forall a :: a in part ==> |part[a]| == |TokensIn(owners, a)|
    ensures TotalHeld(part) == |OwnedBy(owners, part.Keys)|
    decreases |part|
  {
    if part == map[] {
      assert OwnedBy(owners, part.Keys) == {};
    } else {
      var a := Pick(part);
      var rest := part - {a};
      TotalHeldOfPart(owners, rest);
      assert OwnedBy(owners, part.Keys) == OwnedBy(owners, rest.Keys) + TokensIn(owners, a);
      assert OwnedBy(owners, rest.Keys) !! TokensIn(owners, a);
    }
  }

  /** Conservation: the lengths of all lists add up to the number of ids allocated. */
  lemma Conservation(data: map<Address, seq<nat>>, owners: map<nat, Address>, n: nat)
    requires Consistent(data, owners, n)
    ensures TotalHeld(data) == n
  {
    forall a | a in data ensures |data[a]| == |TokensIn(owners, a)| {
      HeldAreTokens(data, owners, n, a);
    }
    TotalHeldOfPart(owners, data);
    assert OwnedBy(owners, data.Keys) == owners.Keys;
    BelowCard(owners.Keys, n);
  }

  /** Giving `id` to `to` takes it from its old owner's tokens and adds it to
      `to`'s; every other address keeps its tokens. */
  lemma Reassign(owners: map<nat, Address>, id: nat, to: Address, a: Address)
    requires id in owners
    ensures TokensIn(owners[id := to], a) ==
            if a == to then TokensIn(owners, a) + {id} else TokensIn(owners, a) - {id}
    ensures a == owners[id] != to ==> |TokensIn(owners[id := to], a)| == |TokensIn(owners, a)| - 1
    ensures a == to != owners[id] ==> |TokensIn(owners[id := to], a)| == |TokensIn(owners, a)| + 1
  {
  }

  /** A move takes one token from the old owner's balance and adds one to
      `to`'s; every other balance, and every balance on a self-transfer, is
      unchanged. */
  lemma BalancesAfterMove(data: map<Address, seq<nat>>, owners: map<nat, Address>, n: nat,
                          id: nat, to: Address, a: Address)
    requires Consistent(data, owners, n) && id in owners
    ensures var owner := owners[id];
            |Held(Moved(data, owner, to, id), a)| ==
            if owner == to then |Held(data, a)|
            else if a == owner then |Held(data, a)| - 1
            else if a == to then |Held(data, a)| + 1
            else |Held(data, a)|
  {
  }
}

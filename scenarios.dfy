/** Verified call sequences on the registry: the outcomes its test suite
    expects, for any different accounts other than the zero address. */
module Scenarios {
  import opened Supporting
  import opened Holdings
  import opened Allocation
  import opened Nft

  /** The holder list [(a1, c1), (a2, c2), (a3, c3)], with the prefixes its
      definitions recurse over spelled out. */
  lemma Prefixes(holders: seq<Holder>, a1: Address, c1: nat, a2: Address, c2: nat, a3: Address, c3: nat)
    requires holders == [Holder(a1, c1), Holder(a2, c2), Holder(a3, c3)]
    ensures holders[..1] == [Holder(a1, c1)] && holders[..1][..0] == []
    ensures holders[..2] == [Holder(a1, c1), Holder(a2, c2)] && holders[..2][..1] == holders[..1]
    ensures holders[..3] == holders && holders[..|holders| - 1] == holders[..2]
    ensures TotalCount(holders[..1]) == c1 && TotalCount(holders[..2]) == c1 + c2
    ensures TotalCount(holders) == c1 + c2 + c3
  {
    assert holders[..2][..1] == holders[..1];
  }

  /** A registry built with no holders refuses every token and reports a zero
      balance for every account. */
  method EmptyRegistry(acc1: Address, acc2: Address, tokenId: int)
    requires acc1 != ZeroAddress
  {
    var nft := new NewNft([]);
    var owner := nft.OwnerOf(tokenId);
    assert owner == Err(InvalidToken);
    var moved := nft.TransferFrom(acc1, acc1, acc2, tokenId);
    assert moved == Fail(InvalidToken);
    HeldAreTokens(nft.data, nft.walletAddressByNft, nft.currentIdx, acc1);
    var balance := nft.BalanceOf(acc1);
    assert balance == Ok(0);
  }

  /** Holders [(acc1, 1), (acc2, 2), (acc3, 1)] get ids 0, 1-2 and 3, and
      no more. */
  method SequentialIds(acc1: Address, acc2: Address, acc3: Address)
    requires acc2 != acc3
  {
    var holders := [Holder(acc1, 1), Holder(acc2, 2), Holder(acc3, 1)];
    assert TotalCount(holders) == 4 && OwnerMap(holders)[0] == acc1 && OwnerMap(holders)[1] == acc2 &&
           OwnerMap(holders)[2] == acc2 && OwnerMap(holders)[3] == acc3 by {
      Prefixes(holders, acc1, 1, acc2, 2, acc3, 1);
      OwnerMapIsOwnerAt(holders);
      OwnerAtPair(holders, 0, 0);
      OwnerAtPair(holders, 1, 1);
      OwnerAtPair(holders, 1, 2);
      OwnerAtPair(holders, 2, 3);
    }
    var nft := new NewNft(holders);
    var owner := nft.OwnerOf(0);
    assert owner == Ok(acc1);
    owner := nft.OwnerOf(1);
    assert owner == Ok(acc2);
    owner := nft.OwnerOf(2);
    assert owner == Ok(acc2);
    owner := nft.OwnerOf(3);
    assert owner == Ok(acc3);
    owner := nft.OwnerOf(4);
    assert owner == Err(InvalidToken);
  }

  /** Holders [(acc1, 1), (acc2, 2), (acc3, 1)]: acc2 starts with 2 tokens. */
  method InitialBalance(acc1: Address, acc2: Address, acc3: Address)
    requires acc1 != acc2 && acc2 != acc3 && acc2 != ZeroAddress
  {
    var holders := [Holder(acc1, 1), Holder(acc2, 2), Holder(acc3, 1)];
    assert |Held(AllocatedMap(holders), acc2)| == 2 by {
      Prefixes(holders, acc1, 1, acc2, 2, acc3, 1);
      assert CountFor(holders[..1], acc2) == 0;
      assert CountFor(holders[..2], acc2) == 2;
      ConstructedBalance(holders, acc2);
    }
    var nft := new NewNft(holders);
    HeldAreTokens(nft.data, nft.walletAddressByNft, nft.currentIdx, acc2);
    var balance := nft.BalanceOf(acc2);
    assert balance == Ok(2);
  }

  /** Holders [(acc1, 1), (acc2, 2), (acc1, 2)]: acc1 accumulates 3 ids,
      among them 4. */
  method RepeatedOwners(acc1: Address, acc2: Address)
    requires acc1 != acc2 && acc1 != ZeroAddress
  {
    var holders := [Holder(acc1, 1), Holder(acc2, 2), Holder(acc1, 2)];
    assert OwnerMap(holders)[4] == acc1 by {
      Prefixes(holders, acc1, 1, acc2, 2, acc1, 2);
      OwnerMapIsOwnerAt(holders);
      OwnerAtPair(holders, 2, 4);
    }
    assert |Held(AllocatedMap(holders), acc1)| == 3 by {
      Prefixes(holders, acc1, 1, acc2, 2, acc1, 2);
      assert CountFor(holders[..1], acc1) == 1;
      assert CountFor(holders[..2], acc1) == 1;
      ConstructedBalance(holders, acc1);
    }
    var nft := new NewNft(holders);
    HeldAreTokens(nft.data, nft.walletAddressByNft, nft.currentIdx, acc1);
    var balance := nft.BalanceOf(acc1);
    assert balance == Ok(3);
    var owner := nft.OwnerOf(4);
    assert owner == Ok(acc1);
  }

  /** acc1 hands token 0 to acc2: ownerOf follows, and the same transfer
      then fails as unauthorized. */
  method TrackedOwner(acc1: Address, acc2: Address, acc3: Address)
    requires acc1 != acc2 && acc2 != ZeroAddress
  {
    var holders := [Holder(acc1, 1), Holder(acc2, 2), Holder(acc3, 1)];
    assert OwnerMap(holders)[0] == acc1 by {
      Prefixes(holders, acc1, 1, acc2, 2, acc3, 1);
      OwnerMapIsOwnerAt(holders);
      OwnerAtPair(holders, 0, 0);
    }
    var nft := new NewNft(holders);
    var moved := nft.TransferFrom(acc1, acc1, acc2, 0);
    assert moved == Pass;
    var owner := nft.OwnerOf(0);
    assert owner == Ok(acc2);
    moved := nft.TransferFrom(acc1, acc1, acc2, 0);
    assert moved == Fail(Unauthorized);
  }

  /** acc1 hands its only token to acc2 and is left with a zero balance. */
  method TrackedBalance(acc1: Address, acc2: Address, acc3: Address)
    requires acc1 != acc2 && acc1 != acc3 && acc1 != ZeroAddress && acc2 != ZeroAddress
  {
    var holders := [Holder(acc1, 1), Holder(acc2, 2), Holder(acc3, 1)];
    assert OwnerMap(holders)[0] == acc1 && |Held(AllocatedMap(holders), acc1)| == 1 by {
      Prefixes(holders, acc1, 1, acc2, 2, acc3, 1);
      OwnerMapIsOwnerAt(holders);
      OwnerAtPair(holders, 0, 0);
      assert CountFor(holders[..1], acc1) == 1;
      assert CountFor(holders[..2], acc1) == 1;
      ConstructedBalance(holders, acc1);
    }
    var nft := new NewNft(holders);
    ghost var data0, owners0 := nft.data, nft.walletAddressByNft;
    var moved := nft.TransferFrom(acc1, acc1, acc2, 0);
    assert |Held(nft.data, acc1)| == 0 by {
      BalancesAfterMove(data0, owners0, nft.currentIdx, 0, acc2, acc1);
    }
    HeldAreTokens(nft.data, nft.walletAddressByNft, nft.currentIdx, acc1);
    var balance := nft.BalanceOf(acc1);
    assert balance == Ok(0);
  }

  /** The zero address is refused as a balance query and as a destination. */
  method InvalidRequests(acc1: Address)
  {
    var holders := [Holder(acc1, 1)];
    assert OwnerMap(holders)[0] == acc1 by {
      assert holders[..0] == [];
      OwnerMapIsOwnerAt(holders);
    }
    var nft := new NewNft(holders);
    var balance := nft.BalanceOf(ZeroAddress);
    assert balance == Err(InvalidAddress);
    var moved := nft.TransferFrom(acc1, acc1, ZeroAddress, 0);
    assert moved == Fail(InvalidAddress);
  }
}

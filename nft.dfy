/** The token registry: one object that owns the holdings of every address,
    the owner of every token id and the count of ids allocated, built once from
    a list of initial holders and changed afterwards only by transfers. */
module Nft {
  import opened Supporting
  import opened ArrayOps
  import opened Allocation
  import opened Holdings

  class NewNft {
    /** The ids each address holds, in the order it acquired them. */
    var data: map<Address, seq<nat>>
    /** The owner of each allocated id. */
    var walletAddressByNft: map<nat, Address>
    /** How many ids have been allocated; the valid ids are those below it. */
    var currentIdx: nat

    /** The object invariant: the two maps agree on every allocated id. */
    ghost predicate Valid()
      reads this
    {
      Consistent(data, walletAddressByNft, currentIdx)
    }

    /** Hands out consecutive ids from 0: pair k gets the next `count` ids, and
        an address named by several pairs accumulates their ids in pair order.
        A pair with count 0 still leaves an (empty) entry in `data`. */
    constructor (holders: seq<Holder>)
      ensures Valid()
      ensures currentIdx == TotalCount(holders)
      ensures data == AllocatedMap(holders)
      ensures walletAddressByNft == OwnerMap(holders)
    {
      data := map[];
      walletAddressByNft := map[];
      currentIdx := 0;
      new;
      var n := 0;
      while n < |holders|
        invariant n <= |holders|
        invariant currentIdx == TotalCount(holders[..n])
        invariant data == AllocatedMap(holders[..n])
        invariant walletAddressByNft == OwnerMap(holders[..n])
        invariant Valid()
      {
        var address, balance := holders[n].address, holders[n].count;
        var sequence := Consecutive(currentIdx, balance);
        ghost var data0, owners0, start := data, walletAddressByNft, currentIdx;
        var currentSequence := Held(data, address);
        data := data[address := currentSequence + sequence];
        RecordOwner(sequence, address);
        currentIdx := currentIdx + balance;
        assert Consistent(data, walletAddressByNft, currentIdx) by {
          GrantKeepsConsistent(data0, owners0, start, address, balance);
        }
        Step(holders, n);
        n := n + 1;
      }
      assert holders[..n] == holders;
    }

    /** The constructor's inner loop: records each id of `sequence`, a run of
        fresh ids, as `address`'s in the reverse map. */
    method RecordOwner(sequence: seq<nat>, address: Address)
      requires forall k :: 0 <= k < |sequence| ==> sequence[k] == currentIdx + k
      modifies this`walletAddressByNft
      ensures walletAddressByNft == old(walletAddressByNft) + Grant(currentIdx, |sequence|, address)
    {
      ghost var owners0 := walletAddressByNft;
      var j := 0;
      while j < |sequence|
        invariant j <= |sequence|
        invariant walletAddressByNft == owners0 + Grant(currentIdx, j, address)
      {
        GrantNext(owners0, currentIdx, j, address);
        walletAddressByNft := walletAddressByNft[sequence[j] := address];
        j := j + 1;
      }
    }

    /** balanceOf: the zero address is refused; any other address gets the
        number of tokens it owns, 0 when it has none. */
    function BalanceOf(owner: Address): (r: Result<nat>)
      reads this
      requires Valid()
      ensures r.Err? <==> owner == ZeroAddress
      ensures r.Err? ==> r.error == InvalidAddress
      ensures r.Ok? ==> r.value == |TokensIn(walletAddressByNft, owner)|
      ensures BalanceOfContract(walletAddressByNft, owner, r)
    {
      if owner == ZeroAddress then Err(InvalidAddress)
      else
        HeldAreTokens(data, walletAddressByNft, currentIdx, owner);
        Ok(|Held(data, owner)|)
    }

    /** ownerOf: an id outside [0, currentIdx) is refused; any other id gets
        the one address whose list holds it. */
    function OwnerOf(tokenId: int): (r: Result<Address>)
      reads this
      requires Valid()
      ensures r.Err? <==> !(0 <= tokenId < currentIdx)
      ensures r.Err? ==> r.error == InvalidToken
      ensures r.Ok? ==> r.value in data && tokenId in data[r.value]
      ensures r.Ok? ==> forall a :: a in data && tokenId in data[a] ==> a == r.value
      ensures OwnerOfContract(walletAddressByNft, tokenId, r)
    {
      NoEntriesNoTokens(data, walletAddressByNft, currentIdx);
      if |data| == 0 || tokenId < 0 || tokenId >= currentIdx then Err(InvalidToken)
      else Ok(walletAddressByNft[tokenId])
    }

    /** transferFrom: checks, in this order, that the id is valid, that both
        `sender` and `from` are its owner and that `to` is not the zero
        address; on the first failed check nothing changes. Otherwise the id is
        spliced out of its owner's list, pushed onto `to`'s, and recorded as
        `to`'s. */
    method TransferFrom(sender: Address, from: Address, to: Address, tokenId: int) returns (r: Outcome)
      requires Valid()
      modifies this`data, this`walletAddressByNft
      ensures Valid()
      ensures TransferFromContract(old(walletAddressByNft), sender, from, to, tokenId, r)
      ensures r.Fail? ==>
                r.error == if !(0 <= tokenId < currentIdx) then InvalidToken
                           else if sender != old(walletAddressByNft)[tokenId] || from != old(walletAddressByNft)[tokenId]
                           then Unauthorized
                           else InvalidAddress
      ensures r.Fail? ==> data == old(data) && walletAddressByNft == old(walletAddressByNft)
      ensures r.Pass? ==> walletAddressByNft == old(walletAddressByNft)[tokenId := to]
      ensures r.Pass? ==> data == Moved(old(data), sender, to, tokenId)
      ensures ZeroAddress !in old(data) ==> ZeroAddress !in data
    {
      // Checks
      var owned := OwnerOf(tokenId);
      if owned.Err? {
        return Fail(owned.error);
      }
      var currentOwner := owned.value;
      if sender != currentOwner || from != currentOwner {
        return Fail(Unauthorized);
      }
      if to == ZeroAddress {
        return Fail(InvalidAddress);
      }

      // Swap asset
      var ownerAssets := data[currentOwner];
      var indexOfAsset := IndexOf(ownerAssets, tokenId);
      // Valid() puts the id in its owner's list, so the source's guard against
      // a missing index always passes.
      assert 0 <= indexOfAsset;
      assert data[currentOwner := ownerAssets[..indexOfAsset] + ownerAssets[indexOfAsset + 1..]]
                 [to := (if to == currentOwner then ownerAssets[..indexOfAsset] + ownerAssets[indexOfAsset + 1..]
                         else Held(data, to)) + [tokenId]]
             == Moved(data, currentOwner, to, tokenId) by {
        SpliceAndPush(data, currentOwner, to, tokenId, indexOfAsset);
      }
      assert Consistent(Moved(data, currentOwner, to, tokenId), walletAddressByNft[tokenId := to], currentIdx) by {
        MoveKeepsConsistent(data, walletAddressByNft, currentIdx, tokenId, to);
      }
      ownerAssets := ownerAssets[..indexOfAsset] + ownerAssets[indexOfAsset + 1..];
      // When `to` is the owner, the source's two lists are the same array, so
      // the push lands on the list the id was just spliced out of.
      var receiverAssets := if to == currentOwner then ownerAssets else Held(data, to);
      receiverAssets := receiverAssets + [tokenId];
      data := data[currentOwner := ownerAssets];
      data := data[to := receiverAssets];
      walletAddressByNft := walletAddressByNft[tokenId := to];
      r := Pass;
    }
  }
}

/** The shared vocabulary of the token registry: addresses, the reserved zero
    address, the shape of an initial holder, the error kinds the operations
    raise, and the contracts that the NFT interface's doc comments promise. */
module Supporting {

  /** An opaque holder identifier. */
  type Address = string

  /** The Ethereum zero address: "0x" followed by forty zeros. */
  const ZeroAddress: Address := "0x0000000000000000000000000000000000000000"

  /** The literal really is "0x" and forty hexadecimal zero digits. */
  lemma ZeroAddressIsZeroHex()
    ensures |ZeroAddress| == 42
    ensures ZeroAddress[0] == '0' && ZeroAddress[1] == 'x'
    ensures forall k :: 2 <= k < |ZeroAddress| ==> ZeroAddress[k] == '0'
  {
  }

  /** An initial holder: an address and how many tokens it is granted. */
  datatype Holder = Holder(address: Address, count: nat)

  /** The three kinds of failure the operations throw. */
  datatype Error =
    | InvalidAddress  // the zero address where an owner or a destination is needed
    | InvalidToken    // a token id that was never allocated
    | Unauthorized    // sender or from is not the token's current owner

  /** The result of a query that may throw. */
  datatype Result<T> = Ok(value: T) | Err(error: Error)

  /** The result of a command that may throw. */
  datatype Outcome = Pass | Fail(error: Error)

  /** The tokens an ownership view assigns to `owner`. */
  ghost function TokensIn(owners: map<nat, Address>, owner: Address): set<nat>
  {
    set i | i in owners && owners[i] == owner
  }

  /** balanceOf: throws for the zero address, otherwise counts the NFTs
      assigned to `owner`, possibly zero. */
  ghost predicate BalanceOfContract(owners: map<nat, Address>, owner: Address, r: Result<nat>)
  {
    if owner == ZeroAddress then r.Err?
    else r == Ok(|TokensIn(owners, owner)|)
  }

  /** ownerOf: throws if `tokenId` is not a valid NFT, otherwise returns its owner. */
  ghost predicate OwnerOfContract(owners: map<nat, Address>, tokenId: int, r: Result<Address>)
  {
    if 0 <= tokenId && tokenId in owners then r == Ok(owners[tokenId])
    else r.Err?
  }

  /** transferFrom: throws unless `sender` is the current owner, if `from` is
      not the current owner, if `to` is the zero address, and if `tokenId` is
      not a valid NFT; it succeeds otherwise. */
  ghost predicate TransferFromContract(owners: map<nat, Address>, sender: Address, from: Address,
                                       to: Address, tokenId: int, r: Outcome)
  {
    if 0 <= tokenId && tokenId in owners then
      r.Pass? <==> sender == owners[tokenId] && from == owners[tokenId] && to != ZeroAddress
    else r.Fail?
  }
}

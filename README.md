# Medallion NFT registry in Dafny

This project models the in-memory token registry of medallion: a
simplified ERC-721 registry built once from a list of `(address, count)`
holders. It answers `balanceOf` and `ownerOf` queries, and its only
mutation is `transferFrom`.

The registry object keeps three fields:

- `data`: each address's token ids, in the order it acquired them;
- `walletAddressByNft`: the reverse map from a token id to its owner;
- `currentIdx`: how many ids have been allocated.

Construction walks the holders in order and gives each pair the next
`count` ids of one global counter. Repeated addresses accumulate.

Modules, one per concern:

- `Supporting` (`supporting.dfy`): the zero address, the holder pair, the
  three error kinds, and the interface's doc-comment contracts as
  predicates.
- `ArrayOps` (`array_ops.dfy`): the JavaScript array operations the
  registry uses on id lists. These are `Array.from` over a length,
  `indexOf` (a loop) and `splice(i, 1)`.
- `Holdings` (`holdings.dfy`): the two maps as values. It defines the
  agreement invariant `Consistent`, what a grant and a move do to the maps,
  and what follows from agreement: each id held exactly once, and balances
  adding up to the number of ids allocated.
- `Allocation` (`allocation.dfy`): the reference description of what
  construction hands out. `Allocated(holders, a)` gives one address's ids
  and `OwnerAt(holders, i)` gives one id's owner. The pair-by-pair maps
  `AllocatedMap` and `OwnerMap` are proved to agree with them.
- `Nft` (`nft.dfy`): the class `NewNft`. Its constructor loops like the
  source. `BalanceOf` and `OwnerOf` are functions reading the fields.
  `TransferFrom` is a method that runs the checks, then splices and pushes.
- `Scenarios` (`scenarios.dfy`): verified call sequences on the registry
  matching the expectations of `src/nft.spec.ts`, stated for any distinct
  non-zero accounts.

`NewNft.Valid()` is `Consistent(data, walletAddressByNft, currentIdx)`:

- the reverse map covers exactly the ids below `currentIdx`;
- no list repeats an id;
- every listed id names its list's address as owner;
- every id is listed under its owner.

The constructor establishes it and `TransferFrom` keeps it. `currentIdx`
never changes after construction, because `TransferFrom`'s `modifies`
clause does not include it.

The interface's doc comment (src/supporting.ts:20-24) lists the conditions
under which `transferFrom` throws, in no particular order. The code
(src/nft.ts:64-71) checks them in a fixed order: an invalid token fails
first with `InvalidToken`, then a wrong sender or `from` fails with
`Unauthorized`, and the zero destination is checked last. So a transfer to
the zero address of a token the sender does not own fails as
`Unauthorized`. `TransferFrom`'s contract states this order.

## Model

| member | source | states |
|---|---|---|
| Supporting.ZeroAddressIsZeroHex | src/supporting.ts:1-2 | The zero address is "0x" followed by forty '0' digits, 42 characters in all. |
| ArrayOps.Consecutive | src/nft.ts:19-22 | The run for a pair has exactly `n` ids. Its idx-th id is `start + idx`. An id is in it exactly when `start <= id < start + n`, and no id repeats. |
| ArrayOps.Without | src/nft.ts:80 | Removing an id keeps exactly the other ids. A list without that id is unchanged. A repeat-free list stays repeat-free and loses exactly one entry. |
| ArrayOps.IndexOf | src/nft.ts:77 | `indexOf` returns -1 exactly when the id is absent. Otherwise it returns a position holding the id, with no earlier occurrence. |
| ArrayOps.SpliceIsWithout | src/nft.ts:80 | On a repeat-free list, `splice(i, 1)` removes exactly the id at position `i`, keeping the rest in order. |
| Holdings.HeldAreTokens | src/nft.ts:45 | Under the invariant, an address's list holds exactly the ids the reverse map gives it. So its length is the address's number of tokens, 0 without an entry. |
| Holdings.ExactlyOnce | src/nft.ts:24-32 | Under the invariant, every allocated id occurs once in its owner's list and zero times in any other list. |
| Holdings.NoEntriesNoTokens | src/nft.ts:49-50 | Under the invariant, an empty `data` forces `currentIdx == 0`. So `ownerOf`'s `data.size === 0` test is implied by its range test. |
| Holdings.SpliceAndPush | src/nft.ts:74-86 | Splicing the id out at its index and pushing it onto the receiver's list gives `Moved`. On a self-transfer the receiver's list is the spliced owner list. |
| Holdings.MoveKeepsConsistent | src/nft.ts:74-88 | Moving a valid id to any address and recording the new owner keeps the two maps in agreement. |
| Holdings.MoveKeepsDistinct | src/nft.ts:80-86 | After a move no list repeats an id. This includes the owner's list on a self-transfer. |
| Holdings.MoveKeepsAgreement | src/nft.ts:84-88 | After a move every listed id names its list's owner, and every id is listed under its owner. |
| Holdings.BalancesAfterMove | src/nft.ts:74-88 | A move lowers the old owner's balance by 1 and raises the receiver's by 1. Every other balance is unchanged, and on a self-transfer every balance is unchanged. |
| Holdings.Reassign | src/nft.ts:88 | Recording `to` as an id's owner adds the id to `to`'s tokens and takes it from every other address. The old owner loses one token and a new receiver gains one. |
| Holdings.GrantRange | src/nft.ts:28-30 | The inner loop's entries cover exactly the ids `n .. n + count - 1`, all mapped to the pair's address. |
| Holdings.GrantKeepsConsistent | src/nft.ts:19-32 | Appending a pair's fresh ids to its address's list and recording them in the reverse map keeps the maps in agreement with `n + count` ids. |
| Holdings.GrantKeepsDistinct | src/nft.ts:24-25 | Appending fresh ids to an existing list keeps it free of repeats. |
| Holdings.GrantKeepsAgreement | src/nft.ts:24-30 | After a grant every listed id names its list's owner, and every id, old or fresh, is listed under its owner. |
| Holdings.Conservation | src/nft.ts:24-32 | Under the invariant the lengths of all lists add up to `currentIdx`. |
| Allocation.UnnamedGetsNothing | src/nft.ts:24 | An address named by no pair is allocated no ids. |
| Allocation.OwnerAtPair | src/nft.ts:18-32 | Pair k owns exactly the ids from the sum of the earlier counts, up to but not including that sum plus its count. |
| Allocation.AllocatedCount | src/nft.ts:24-25 | An address is allocated as many ids as the counts of the pairs naming it add up to. |
| Allocation.AllocatedOwner | src/nft.ts:18-30 | An id is allocated to `a` exactly when it is below the total count and its pair names `a`. No id is allocated to `a` twice. |
| Allocation.AllocatedMapIsAllocated | src/nft.ts:18-25 | The lists construction leaves have an entry for exactly the named addresses, count-0 pairs included. Each entry holds its address's ranges concatenated in pair order. |
| Allocation.OwnerMapIsOwnerAt | src/nft.ts:27-32 | The reverse map construction leaves covers exactly the ids below the total count. Each id maps to the address of the pair whose range contains it. |
| Allocation.ConstructedBalance | src/nft.ts:24-25 | After construction an address holds as many ids as the counts of its pairs add up to, so repeated addresses accumulate. |
| Nft.NewNft.constructor | src/nft.ts:12-35 | Construction establishes the invariant. It leaves `currentIdx` at the total count, `data` equal to `AllocatedMap(holders)` and the reverse map equal to `OwnerMap(holders)`. |
| Nft.NewNft.RecordOwner | src/nft.ts:27-30 | The inner loop records every id of the fresh run as the pair's address and changes no other entry. |
| Nft.NewNft.BalanceOf | src/nft.ts:36-46 | `balanceOf` fails with `InvalidAddress` exactly for the zero address. Otherwise it returns the number of tokens the address owns, possibly zero, as the interface's contract requires. |
| Nft.NewNft.OwnerOf | src/nft.ts:48-55 | `ownerOf` fails with `InvalidToken` exactly when the id is outside `[0, currentIdx)`. Otherwise it returns the one address whose list holds the id, which is the owner the reverse map records. |
| Nft.NewNft.TransferFrom | src/nft.ts:57-90 | The checks fail in order: invalid token, then sender or `from` not the owner, then zero destination. A failure changes nothing. A success records `to` as the owner, moves the id as `Moved` describes and keeps the invariant. The interface's throw conditions hold. |

## Left out

- Runtime type checks are not modelled: `typeof ownerId !== 'string'` in `balanceOf` and `Number.isInteger` in `ownerOf`. Addresses are strings and ids are integers by type, so only the sign and range tests remain.
- Holder counts are natural numbers. A negative or fractional count, which JavaScript would accept, is not modelled.
- `currentIdx` and the ids are unbounded integers. The precision limit of JavaScript numbers above 2^53 is not modelled.
- The reverse map is keyed by the integer id rather than by `String(id)`.
- Thrown message strings are replaced by the three error kinds `InvalidAddress`, `InvalidToken` and `Unauthorized`.
- `ownerOf`'s `|| ''` fallback is not modelled as behaviour. Under the invariant every valid id has an owner, so the map lookup is proved defined.
- The `indexOf` miss guard in `transferFrom` (src/nft.ts:78) is proved never taken and is not modelled as a silent no-op.
- Arrays shared in place are modelled as values. The one aliasing the source relies on, the owner's and receiver's list being the same array on a self-transfer, is written out explicitly.
- The `createFn` factory closure is not modelled. A missing holder list is the empty sequence. The duplicated `ZeroAddress` declaration of src/nft.ts:4 is the single `Supporting.ZeroAddress`.
- The zero address as an initial holder is accepted, as in the code. The invariant "the zero address owns nothing" is therefore not proved.
- ERC-721 features absent from the code are not modelled: approvals, `safeTransferFrom`, events and minting after construction.
- The randomised large-holder test of src/nft.spec.ts:169-195 is not replayed. `Allocation.ConstructedBalance` and `Allocation.OwnerMapIsOwnerAt` cover it for every holder list.
- Nft.NewNft.TransferFrom: the balance and ownership effects are not restated in its own contract. They follow from its `Moved` and reverse-map postconditions through `Holdings.BalancesAfterMove`, `Holdings.Reassign` and `Holdings.HeldAreTokens`.

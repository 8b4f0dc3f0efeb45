# OTC escrow, modelled in Dafny

This project models the escrow core of an over-the-counter (OTC) trading contract for a CosmWasm chain. A seller deposits one asset, native coins or a cw20 token amount, and names the one asset wanted in return. Any other party can later swap for it in full. The contract then pays the seller and releases the deposit to the payer.

The core appears twice in the repository:

- **Single contract** (`src/contract.rs`).
  - Offers live in a store keyed by ids below 1000.
  - New ids are found by linear probing modulo 1000, starting at a cursor kept in the config.
  - A swap validates the payment and emits two transfer instructions: payment to the seller, escrow to the payer. It then deletes the offer.
  - A query lists the offers in ascending id order.
- **Factory** (`contracts/factory/src/contract.rs`).
  - Offer construction and validation are the same.
  - Ids come from a `u64` counter that only grows.
  - Each offer is stored under the 8-byte big-endian encoding of its id.

Layout:

- `cw.dfy` (module `Cw`) holds the host values: coins, `Balance`, the call context, the cw20 receive hook and the outgoing transfer instructions. `Credit` interprets an instruction: it says whom the instruction credits, and with what.
- `state.dfy` (module `OtcState`) holds the stored records (`OtcInfo`, `State`), the errors, the responses and `NewOffer`. `NewOffer` is the two-leg offer construction both variants perform.
- `otc.dfy` (module `Otc`) holds the single contract.
  - Each entry point is specified by a pure step function: `CreateStep`, `SwapStep` or `ExecuteStep`. A step function returns the new config, the new store and the response, or the error.
  - The class `OtcContract` holds the two storage items as fields. Its methods perform the probe loop and the writes.
  - Each method is proved to commit exactly its step on success and to write nothing on failure (`Commits`).
- `factory.dfy` (module `Factory`) holds the factory, built the same way (`FactoryCreateStep`, `FactoryContract`).

Panics in the source (`pop().unwrap()` on an empty coin list, the `cast!` variant mismatch) are not behaviour a caller can rely on. They are stated as preconditions, and so is the loop's need for a free slot.

## Model

| member | source | states |
|---|---|---|
| Cw.TransferTo | src/contract.rs:323-337 | The instruction built for a balance credits exactly that balance to the recipient. Native balances become a bank send; cw20 balances become a `Transfer` executed on the token contract, with no funds attached. |
| OtcState.InitialState | src/contract.rs:44-48 | The config `instantiate` stores is active, with the cursor at 0 and the caller as admin. |
| OtcState.NewOffer | src/contract.rs:158-220 | Building an offer fails with the multiple-denominations error exactly when a native leg holds more than one coin. Otherwise each leg's flag, amount, denomination and address mirror its balance; reading the legs back gives the balances again; and seller, expiry, user info and description are copied. |
| Otc.FreeSlotExists | src/contract.rs:223-225 | Fewer than 1000 offers, all on ids below 1000, leave some id below 1000 free. |
| Otc.FirstFreeIndex | src/contract.rs:223-225 | Given a free id, some step of the probe sequence from the cursor is free while every earlier step is taken. |
| Otc.ProbeReaches | src/contract.rs:223-225 | When step `k` of the probe sequence is the first free one, the probe stops exactly there. |
| Otc.ProbeFindsFirstFree | src/contract.rs:223-225 | From any cursor below 1000, with fewer than 1000 offers stored, the probe returns an unused id below 1000: the first free id along `index, index+1, …` taken modulo 1000. |
| Otc.OtcContract.ProbeFrom | src/contract.rs:223-225 | The `while OTCS.has(index)` loop terminates at the id `Probe` computes, which is free and below 1000. |
| Otc.InsertFresh | src/contract.rs:227-230 | Saving an offer under an unused id adds exactly that key, grows the store by one, leaves every other offer unchanged and keeps the store invariant with the cursor moved to the new id. |
| Otc.CreateStep | src/contract.rs:135-243 | Create fails with the stopped error while inactive, and with the multiple-denominations error on a multi-coin native leg. Otherwise it stores the built offer under the first free id from the cursor and moves the cursor there. The store gains exactly that key; the other entries are unchanged. The response carries no messages, the method `create_new_otc` and the stored id and offer. The invariant is preserved. |
| Otc.OtcContract.CreateOtc | src/contract.rs:135-243 | `try_create_otc` writes exactly the state `CreateStep` describes on success, and writes nothing when it fails. |
| Otc.Settle | src/contract.rs:257-337 | A payment of the wrong kind is rejected with the wrong-denomination error. A payment is accepted exactly when it covers the ask: same asset, one coin, at least the asked amount. Then there are two instructions: the first credits the whole payment to the seller, the second credits the escrowed sell leg to the payer. The instructions are exactly `TransferTo(seller, payment)` and `TransferTo(payer, sell leg)`, so a cw20 transfer carries no funds. Each rejection carries the error of the check that failed: several coins, a single coin of the wrong denomination, wrong token, or too little of the right asset. |
| Otc.SwapStep | src/contract.rs:247-350 | An unknown id fails with the not-found error. A swap succeeds exactly when the id is stored and the payment covers its ask. A successful swap removes exactly that id, leaves the config and all other offers untouched, and answers `swap` with exactly the two instructions `TransferTo(seller, payment)` and `TransferTo(payer, sell leg)`. The invariant is preserved. |
| Otc.OtcContract.Swap | src/contract.rs:247-350 | `try_swap` commits exactly `SwapStep` on success and writes nothing on failure. |
| Otc.CreateThenSwap | src/contract.rs:227-349 | A swap that covers the ask of a freshly created offer succeeds and restores the store to what it was before the create. The seller gets the whole payment, and the payer gets exactly the balance the seller deposited. |
| Otc.Scan | src/contract.rs:364-370 | An ascending range scan returns exactly the stored pairs in the range, ids strictly increasing, none missed. |
| Otc.QueryOtcs | src/contract.rs:363-374 | The listing holds every stored `(id, offer)` pair and nothing else, in strictly ascending id order. |
| Otc.QueryOtcsLength | src/contract.rs:363-374 | The listing has exactly one entry per stored offer. |
| Otc.OtcContract.Query | src/contract.rs:355-374 | `query_otcs` answers the listing `QueryOtcs` specifies. |
| Otc.RequestOf | src/contract.rs:61-132 | Dispatch: attached funds become a native balance from the caller, flagged native. A cw20 hook becomes a cw20 balance of the calling token contract for the forwarded amount, acting for the hook's original sender, flagged not native; the hook's inner create message or swap id is forwarded unchanged. The flag always agrees with the balance kind. |
| Otc.ExecuteStep | src/contract.rs:61-132 | Every successful `execute` preserves the store invariant. |
| Otc.OtcContract.Execute | src/contract.rs:61-132 | `execute`/`execute_receive` commits exactly `ExecuteStep` on success and writes nothing on failure. |
| Otc.OtcContract.constructor | src/contract.rs:35-55 | Instantiation leaves the initial config and an empty store, which satisfy the invariant. |
| Otc.CreateNativeAfterInstantiate | src/contract.rs:487-492 | Right after instantiation, selling one native coin for another succeeds with id 0 and method `create_new_otc`. The echoed offer carries both native legs, expiry 100 and no user info or description. |
| Otc.SwapAfterCreate | src/contract.rs:247-350 | After an offer of 5 `token_1` for 10 `token_2`, a payment of 1 `token_2` fails as insufficient and 10 `token_3` fails as the wrong denomination. 10 `token_2` settles: the seller gets the 10 `token_2` and the payer the 5 `token_1`. The listing is then empty. |
| Factory.BigEndianRoundTrip | contracts/factory/src/contract.rs:210 | Decoding a `width`-byte big-endian encoding gives the number back. |
| Factory.FromBigEndianInjective | contracts/factory/src/contract.rs:210 | Two byte strings of equal length that decode to the same number are equal. |
| Factory.LexLessIsNumericLess | contracts/factory/src/contract.rs:210 | For equal-length byte strings, lexicographic order is the order of the numbers they encode. |
| Factory.Key | contracts/factory/src/contract.rs:210 | `index.to_be_bytes()` is 8 bytes long and decodes to `index`. |
| Factory.KeyOrder | contracts/factory/src/contract.rs:210 | Key order is id order, in both directions. |
| Factory.FactoryCreateStep | contracts/factory/src/contract.rs:121-220 | Factory create fails with the stopped error while inactive, and with the multiple-denominations error on a multi-coin native leg. Otherwise it stores the built offer under the key of the counter, a key not used before, and increments the counter by exactly one. The store grows by one. The response has no messages, only `method=create_new_otc`. The invariant is preserved. |
| Factory.StoredKeysSortFirst | contracts/factory/src/contract.rs:210-213 | Every stored key sorts before the key of the next id, so a new offer always lands after all existing ones in key order. |
| Factory.InsertUnderNextKey | contracts/factory/src/contract.rs:210-213 | The counter's key is unused, and storing under it and then incrementing keeps the invariant: one offer per id handed out, each under an 8-byte key of an id below the counter. |
| Factory.CreateRun | contracts/factory/src/contract.rs:210-213 | Over any sequence of create calls, the counter advances by exactly the number of offers created, the store grows by the same number, and the invariant holds at the end. |
| Factory.CreateRunKeeps | contracts/factory/src/contract.rs:210-213 | No stored key is ever dropped by later creates, and the offer stored under it keeps its value. |
| Factory.CounterCountsCreates | contracts/factory/src/contract.rs:30-33 | Starting from the instantiated config (counter 0, empty store), the counter after a run equals the number of offers created, which equals the number stored. |
| Factory.CreateRequestOf | contracts/factory/src/contract.rs:50-114 | Dispatch: `NewOTC` sells the attached native funds for the caller. A cw20 hook sells a cw20 balance of the calling token contract for the forwarded amount, for the hook's original sender, with the ask, end time, user info and description of the wrapped message unchanged. Any other wrapped message fails with the unknown-receive-message error. |
| Factory.FactoryExecuteStep | contracts/factory/src/contract.rs:50-114 | Every successful `execute` preserves the invariant and increments the counter by one. |
| Factory.FactoryContract.constructor | contracts/factory/src/contract.rs:21-42 | Instantiation leaves an active config with counter 0 and an empty store. |
| Factory.FactoryContract.CreateOtc | contracts/factory/src/contract.rs:121-220 | `try_create_otc` commits exactly `FactoryCreateStep` on success and writes nothing on failure. |
| Factory.FactoryContract.Execute | contracts/factory/src/contract.rs:50-114 | `execute`/`execute_receive` commits exactly `FactoryExecuteStep` on success and writes nothing on failure. |

## Left out

- Instantiation bookkeeping is not modelled: `set_contract_version`, the `instantiate`/`owner` attributes and the instantiate response. Only the stored config is modelled, as the class constructors.
- Serialisation is not modelled: `to_binary`, `from_binary` and `set_data`. Messages arrive already decoded, and the response's data is the `NewOTCResponse` value itself. A hook payload that fails to decode is a host failure and is not modelled.
- Address handling is the identity: `addr_canonicalize`, `addr_humanize` and `addr_validate` are host calls, and their failures are not modelled. The single contract's `admin` is kept but never read.
- Executing the bank and cw20 transfers is not modelled. It is the ledger's job; the model only produces the instructions, and `Credit` says what each one moves.
- Otc.CreateStep, Otc.SwapStep, Factory.FactoryCreateStep: these require what would otherwise be a panic. The required facts are:
  - native coin lists are non-empty (`pop().unwrap()`);
  - the `native` flag agrees with the balance kind (`cast!`);
  - single-contract create has fewer than 1000 stored offers, because otherwise the probe loop never ends;
  - the factory counter does not overflow `u64`.
- Amounts are unbounded naturals, so `Uint128` overflow is not modelled. The contracts only compare amounts, so nothing in the model depends on the bound.
- The not-found error of `OTCS.load` is the storage error `StdError::NotFound`; the model keeps only its kind, not its text.
- The factory's `query`/`hello_world`, `try_execute`, and the commented-out `reply` handler are not part of this model. They are stubs or dead code.
- `src/tests.rs` and `src/msg.rs` describe a newer interface, and it is not modelled. That interface adds expiration checks, a paginated listing with `include_expired`/`start_after`/`limit`, and a rule against swapping with oneself. The model follows `src/contract.rs`, which has none of them. An expired offer can still be swapped and is still listed.
- No refund of overpayment is modelled, because the code makes none: the seller is paid the whole payment, not just the asked amount, as `Otc.Settle` states.
- Storage declarations that disagree with the code follow the code:
  - `src/state.rs` declares `otc_code_hash` in `State`, but `src/contract.rs:44-48` never sets it.
  - `src/state.rs` keys `OTCS` by byte strings, while `src/contract.rs` uses `u32` ids.
  - The single contract allocates ids as naturals below 1000. A swap accepts any natural id, and an id that is not stored fails with the not-found error. Only the listing scan is bounded, by the `u32` range.
- The factory's `ExecuteMsg` in `contracts/factory/src/msg.rs:19-43` has a different field shape from the one `contracts/factory/src/contract.rs:57-62` matches on. The model uses the contract's shape: `ask_balance`, `ends_at`, `user_info`, `description`.
- `contracts/factory/src/state.rs` declares no `OTCS` store and no `OTCInfo`. The factory model reuses the single contract's `OtcInfo` and stores it under 8-byte keys.
- The single contract's ids are not shown to keep any order over time: probing wraps around modulo 1000, so a later offer can receive a smaller id.

/** Values the escrow exchanges with its host chain and with cw20 token
    contracts: coins, balances, the call context and the transfer
    instructions it hands back for the ledger to execute. */
module Cw {

  /** Addresses are opaque; the escrow only compares them. Human-readable and
      canonical forms are identified (canonicalisation is the identity here). */
  type Addr = string

  datatype Option<T> = None | Some(value: T)

  /** A native coin: one denomination and an unsigned amount. */
  datatype Coin = Coin(denom: string, amount: nat)

  /** `cw20::Balance`: the native coins attached to a call, or a cw20 amount
      whose token contract is known (the contract that called us). */
  datatype Balance =
    | Native(coins: seq<Coin>)
    | Cw20(address: Addr, amount: nat)

  /** The one cw20 execute message the escrow emits. */
  datatype Cw20ExecuteMsg = Transfer(recipient: Addr, amount: nat)

  /** The two kinds of outgoing instruction: a bank send of native coins, or
      a call into a cw20 contract carrying a transfer (and no funds). */
  datatype CosmosMsg =
    | BankSend(toAddress: Addr, amount: seq<Coin>)
    | WasmExecute(contractAddr: Addr, msg: Cw20ExecuteMsg, funds: seq<Coin>)

  /** The call context: who called, and which native coins came with the call. */
  datatype MessageInfo = MessageInfo(sender: Addr, funds: seq<Coin>)

  /** A cw20 `Receive` hook: the original sender, the amount moved to us,
      and the inner message (already decoded). */
  datatype Cw20ReceiveMsg<M> = Cw20ReceiveMsg(sender: Addr, amount: nat, msg: M)

  /** A balance naming exactly one asset (one coin, or one cw20 amount). */
  predicate SingleAsset(b: Balance)
  {
    b.Native? ==> |b.coins| == 1
  }

  /** What an instruction credits, and to whom, once the ledger executes it. */
  function Credit(m: CosmosMsg): (Addr, Balance)
  {
    match m
    case BankSend(to, coins) => (to, Native(coins))
    case WasmExecute(token, Transfer(to, amount), _) => (to, Cw20(token, amount))
  }

  /** The instruction that moves balance `b` to `to`: a bank send for native
      coins, a cw20 `Transfer` executed on the token contract otherwise. */
  function TransferTo(to: Addr, b: Balance): (m: CosmosMsg)
    ensures Credit(m) == (to, b)
    ensures m.WasmExecute? ==> m.funds == []
    ensures m.BankSend? <==> b.Native?
  {
    match b
    case Native(coins) => BankSend(to, coins)
    case Cw20(token, amount) => WasmExecute(token, Transfer(to, amount), [])
  }
}

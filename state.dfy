/** The persisted records of the escrow (one offer per id, one config
    singleton), its errors and responses, and the construction of an offer
    from its two legs, which both contract variants share. */
module OtcState {
  import opened Cw

  datatype UserInfo = UserInfo(user: string, accountType: Option<string>)

  /** One open offer. Each leg is flattened into a kind flag (native or cw20),
      an amount, and a denomination (native) or a token address (cw20). */
  datatype OtcInfo = OtcInfo(
    seller: Addr,
    sellNative: bool,
    sellAmount: nat,
    sellDenom: Option<string>,
    sellAddress: Option<Addr>,
    askNative: bool,
    askAmount: nat,
    askDenom: Option<string>,
    askAddress: Option<Addr>,
    endsAt: nat,
    userInfo: Option<UserInfo>,
    description: Option<string>)

  /** The config singleton of the single-contract escrow: `index` is the
      allocation cursor. */
  datatype State = State(admin: Addr, index: nat, active: bool)

  /** The configuration `instantiate` stores: active, cursor at 0. */
  function InitialState(admin: Addr): (s: State)
    ensures s.active && s.index == 0 && s.admin == admin
  {
    State(admin, 0, true)
  }

  /** Every way a call can fail. `NotFound` is the storage error of loading
      an unknown offer; every other variant is a generic error in the source,
      named after its message. */
  datatype ContractError =
    | Stopped               // "The factory has been stopped.  No new otc can be created"
    | TooManyDenoms         // "Cannot create an otc with mupltiple denoms"
    | PaymentTooManyDenoms  // "Can't accept multiple denoms at time"
    | WrongDenomination     // "Wrong denomination"
    | WrongToken            // "Wrong cw20 token"
    | InsufficientPayment   // "Send amount is smaller than what being asked"
    | NotFound              // the offer is not in the store
    | UnknownReceiveMessage // "Unknown Receive message "

  datatype Result<T> = Ok(value: T) | Err(error: ContractError)

  /** The payload a successful create attaches to its response. */
  datatype NewOtcResponse = NewOtcResponse(id: nat, otc: OtcInfo)

  /** A successful call's response: the instructions for the ledger, the
      `method` attribute and the optional data payload. */
  datatype Response = Response(messages: seq<CosmosMsg>, attrMethod: string, data: Option<NewOtcResponse>)

  /** The stored shape of one leg: a native leg has a denomination and no
      address, a cw20 leg an address and no denomination. */
  predicate LegShape(native: bool, denom: Option<string>, address: Option<Addr>)
  {
    if native then denom.Some? && address.None? else address.Some? && denom.None?
  }

  /** Both legs of a stored offer are well shaped, so the swap's unwraps of
      `ask_denom`, `ask_address`, `sell_denom` and `sell_address` succeed. */
  predicate WellFormed(o: OtcInfo)
  {
    LegShape(o.sellNative, o.sellDenom, o.sellAddress) && LegShape(o.askNative, o.askDenom, o.askAddress)
  }

  /** A stored leg read back as the single-asset balance it stands for. */
  function LegBalance(native: bool, amount: nat, denom: Option<string>, address: Option<Addr>): (b: Balance)
    requires LegShape(native, denom, address)
    ensures SingleAsset(b) && (b.Native? <==> native)
  {
    if native then Native([Coin(denom.value, amount)]) else Cw20(address.value, amount)
  }

  function SellLeg(o: OtcInfo): Balance
    requires WellFormed(o)
  {
    LegBalance(o.sellNative, o.sellAmount, o.sellDenom, o.sellAddress)
  }

  function AskLeg(o: OtcInfo): Balance
    requires WellFormed(o)
  {
    LegBalance(o.askNative, o.askAmount, o.askDenom, o.askAddress)
  }

  /** The stored fields of one leg mirror the balance it was built from. */
  predicate Mirrors(native: bool, amount: nat, denom: Option<string>, address: Option<Addr>, b: Balance)
  {
    match b
    case Native(coins) =>
      |coins| == 1 && native && amount == coins[0].amount && denom == Some(coins[0].denom) && address == None
    case Cw20(token, tokens) =>
      !native && amount == tokens && address == Some(token) && denom == None
  }

  /** A native balance has a coin to pop (`pop().unwrap()` would panic otherwise). */
  predicate CoinsPresent(b: Balance)
  {
    b.Native? ==> |b.coins| > 0
  }

  /** Building an offer never pops an empty coin list: the sell leg is popped
      first, and the ask leg only once the sell leg was accepted. */
  predicate LegsPoppable(sell: Balance, ask: Balance)
  {
    CoinsPresent(sell) && (SingleAsset(sell) ==> CoinsPresent(ask))
  }

  /** The first leg of `try_create_otc`: fill the sell fields of `o` from
      `sell`, popping its one coin when native. */
  function WithSell(o: OtcInfo, sell: Balance): Result<OtcInfo>
    requires CoinsPresent(sell)
  {
    match sell
    case Native(coins) =>
      var coin := coins[|coins| - 1];
      if |coins| - 1 != 0 then Err(TooManyDenoms)
      else Ok(o.(sellNative := true, sellAmount := coin.amount, sellDenom := Some(coin.denom)))
    case Cw20(token, amount) =>
      Ok(o.(sellNative := false, sellAmount := amount, sellAddress := Some(token)))
  }

  /** The second leg: fill the ask fields the same way. */
  function WithAsk(o: OtcInfo, ask: Balance): Result<OtcInfo>
    requires CoinsPresent(ask)
  {
    match ask
    case Native(coins) =>
      var coin := coins[|coins| - 1];
      if |coins| - 1 != 0 then Err(TooManyDenoms)
      else Ok(o.(askNative := true, askAmount := coin.amount, askDenom := Some(coin.denom)))
    case Cw20(token, amount) =>
      Ok(o.(askNative := false, askAmount := amount, askAddress := Some(token)))
  }

  /** The offer `try_create_otc` builds from a blank record: it fails exactly
      when a native leg carries more than one coin; otherwise each leg's
      fields mirror its balance, reading the legs back gives the balances
      again, and the pass-through fields are copied. */
  function NewOffer(seller: Addr, sell: Balance, ask: Balance, endsAt: nat,
                    userInfo: Option<UserInfo>, description: Option<string>): (r: Result<OtcInfo>)
    requires LegsPoppable(sell, ask)
    ensures r.Err? <==> !SingleAsset(sell) || !SingleAsset(ask)
    ensures r.Err? ==> r.error == TooManyDenoms
    ensures r.Ok? ==> Mirrors(r.value.sellNative, r.value.sellAmount, r.value.sellDenom, r.value.sellAddress, sell)
    ensures r.Ok? ==> Mirrors(r.value.askNative, r.value.askAmount, r.value.askDenom, r.value.askAddress, ask)
    ensures r.Ok? ==> WellFormed(r.value) && SellLeg(r.value) == sell && AskLeg(r.value) == ask
    ensures r.Ok? ==> r.value.seller == seller && r.value.endsAt == endsAt
                      && r.value.userInfo == userInfo && r.value.description == description
  {
    var blank := OtcInfo(seller, false, 0, None, None, false, 0, None, None, endsAt, userInfo, description);
    var withSell := WithSell(blank, sell);
    if withSell.Err? then withSell else WithAsk(withSell.value, ask)
  }
}

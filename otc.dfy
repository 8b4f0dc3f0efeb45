/** The single-contract escrow: offers live in a store keyed by ids below
    1000, allocated by linear probing from a cursor; a swap pays the seller,
    releases the escrowed leg to the payer and deletes the offer. */
module Otc {
  import opened Cw
  import opened OtcState

  /** Ids wrap around at this modulus. */
  const Modulus: nat := 1000

  /** The listing scans the whole `u32` key space. */
  const IdSpace: nat := 0x1_0000_0000

  // ---------------------------------------------------------------------
  // Id allocation
  // ---------------------------------------------------------------------

  /** The slot probed after `k` steps from `start`. */
  function ProbeSlot(start: nat, k: nat): nat
  {
    (start + k) % Modulus
  }

  /** Where the allocation loop stops: it steps the cursor while the slot is
      taken. `fuel` counts the probes left; with `Modulus` probes every slot
      is visited once. */
  function Probe(keys: set<nat>, index: nat, fuel: nat): nat
    decreases fuel
  {
    if index !in keys || fuel == 0 then index
    else Probe(keys, (index + 1) % Modulus, fuel - 1)
  }

  /** `id` is the first free slot on the probe sequence from `start`. */
  ghost predicate FirstFreeAlong(keys: set<nat>, start: nat, id: nat)
  {
    exists k :: 0 <= k < Modulus && id == ProbeSlot(start, k) && id !in keys
                && forall j :: 0 <= j < k ==> ProbeSlot(start, j) in keys
  }

  /** All ids below `n`: there are `n` of them. */
  function Slots(n: nat): (s: set<nat>)
    ensures forall i: nat :: i in s <==> i < n
    ensures |s| == n
  {
    if n == 0 then {}
    else
      var below := Slots(n - 1);
      assert n - 1 !in below;
      below + {n - 1}
  }

  lemma {:induction false} SubsetCount(a: set<nat>, b: set<nat>)
    requires a <= b
    ensures |a| <= |b|
  {
    assert b == a + (b - a);
  }

  /** Fewer than `Modulus` offers, all on ids below `Modulus`, leave a free slot. */
  lemma FreeSlotExists(keys: set<nat>)
    requires forall id :: id in keys ==> id < Modulus
    requires |keys| < Modulus
    ensures exists f :: 0 <= f < Modulus && f !in keys
  {
    if forall f :: 0 <= f < Modulus ==> f in keys {
      SubsetCount(Slots(Modulus), keys);
      assert false;
    }
  }

  lemma {:induction false} ModShiftMultiple(q: nat, x: nat)
    ensures (q * Modulus + x) % Modulus == x % Modulus
  {
    if q > 0 {
      ModShiftMultiple(q - 1, x);
      assert q * Modulus + x == ((q - 1) * Modulus + x) + Modulus;
    }
  }

  lemma ModAdd(a: nat, b: nat)
    ensures (a % Modulus + b) % Modulus == (a + b) % Modulus
  {
    var q, r := a / Modulus, a % Modulus;
    assert a + b == q * Modulus + (r + b);
    ModShiftMultiple(q, r + b);
  }

  /** Probing from the next slot is probing one step further; stepping the
      cursor once moves it one step along the probe sequence. */
  lemma ProbeSlotShift(start: nat, j: nat)
    ensures ProbeSlot((start + 1) % Modulus, j) == ProbeSlot(start, j + 1)
    ensures (ProbeSlot(start, j) + 1) % Modulus == ProbeSlot(start, j + 1)
  {
    ModAdd(start + 1, j);
    ModAdd(start + j, 1);
  }

  /** When step `k` is the first free one and the fuel covers it, the probe
      stops exactly there. */
  lemma {:induction false} ProbeReaches(keys: set<nat>, start: nat, k: nat, fuel: nat)
    requires start < Modulus && k <= fuel
    requires ProbeSlot(start, k) !in keys
    requires forall j :: 0 <= j < k ==> ProbeSlot(start, j) in keys
    ensures Probe(keys, start, fuel) == ProbeSlot(start, k)
    decreases k
  {
    if k == 0 {
      assert ProbeSlot(start, 0) == start;
    } else {
      assert ProbeSlot(start, 0) == start && start in keys;
      var next := (start + 1) % Modulus;
      forall j | 0 <= j < k - 1 ensures ProbeSlot(next, j) in keys {
        ProbeSlotShift(start, j);
      }
      ProbeSlotShift(start, k - 1);
      ProbeReaches(keys, next, k - 1, fuel - 1);
    }
  }

  /** A free slot `d` steps away implies a first free step at or before `d`. */
  lemma {:induction false} FirstFreeStep(keys: set<nat>, start: nat, d: nat)
    requires ProbeSlot(start, d) !in keys
    ensures exists k :: 0 <= k <= d && ProbeSlot(start, k) !in keys
                        && forall j :: 0 <= j < k ==> ProbeSlot(start, j) in keys
  {
    if exists j :: 0 <= j < d && ProbeSlot(start, j) !in keys {
      var j :| 0 <= j < d && ProbeSlot(start, j) !in keys;
      FirstFreeStep(keys, start, j);
    }
  }

  /** With a free slot among ids below `Modulus`, some step `d` of the probe
      sequence from a cursor below `Modulus` is the first free one. */
  lemma FirstFreeIndex(keys: set<nat>, start: nat) returns (d: nat)
    requires start < Modulus
    requires forall id :: id in keys ==> id < Modulus
    requires |keys| < Modulus
    ensures d < Modulus && ProbeSlot(start, d) !in keys
    ensures forall j :: 0 <= j < d ==> ProbeSlot(start, j) in keys
  {
    FreeSlotExists(keys);
    var f :| 0 <= f < Modulus && f !in keys;
    var e := if start <= f then f - start else f + Modulus - start;
    assert ProbeSlot(start, e) == f;
    FirstFreeStep(keys, start, e);
    d :| 0 <= d <= e && ProbeSlot(start, d) !in keys
         && forall j :: 0 <= j < d ==> ProbeSlot(start, j) in keys;
  }

  /** With a free slot among ids below `Modulus`, a `Modulus`-step probe from
      any cursor below `Modulus` lands on the first free slot along the probe
      sequence: an unused id below `Modulus`. */
  lemma ProbeFindsFirstFree(keys: set<nat>, start: nat)
    requires start < Modulus
    requires forall id :: id in keys ==> id < Modulus
    requires |keys| < Modulus
    ensures Probe(keys, start, Modulus) !in keys && Probe(keys, start, Modulus) < Modulus
    ensures FirstFreeAlong(keys, start, Probe(keys, start, Modulus))
  {
    var d := FirstFreeIndex(keys, start);
    ProbeReaches(keys, start, d, Modulus);
  }

  // ---------------------------------------------------------------------
  // The store and its transitions
  // ---------------------------------------------------------------------

  /** What every reachable state satisfies: the cursor and every id are below
      `Modulus`, and every stored offer is well formed. */
  predicate StoreInvariant(config: State, otcs: map<nat, OtcInfo>)
  {
    && config.index < Modulus
    && forall id :: id in otcs ==> id < Modulus && WellFormed(otcs[id])
  }

  /** Storing a well-formed offer under an unused id below `Modulus` adds
      exactly that id, keeps every other offer, and keeps the invariant with
      the cursor moved to the new id. */
  lemma InsertFresh(config: State, otcs: map<nat, OtcInfo>, id: nat, offer: OtcInfo)
    requires StoreInvariant(config, otcs)
    requires id !in otcs && id < Modulus && WellFormed(offer)
    ensures otcs[id := offer].Keys == otcs.Keys + {id}
    ensures |otcs[id := offer]| == |otcs| + 1
    ensures forall other :: other in otcs ==> otcs[id := offer][other] == otcs[other]
    ensures StoreInvariant(config.(index := id), otcs[id := offer])
  {
    var stored := otcs[id := offer];
    assert stored.Keys == otcs.Keys + {id};
    forall k | k in stored ensures k < Modulus && WellFormed(stored[k]) {
      if k != id {
        assert k in otcs;
      }
    }
  }

  /** The state and response a successful call commits. */
  datatype Outcome = Outcome(config: State, otcs: map<nat, OtcInfo>, response: Response)

  /** The whole effect of `try_create_otc`. It fails while the config is
      inactive and when a native leg holds several coins; otherwise it stores
      the new offer under the first free id from the cursor, moves the cursor
      there, and answers with that id and offer. */
  function CreateStep(config: State, otcs: map<nat, OtcInfo>, seller: Addr, sell: Balance, ask: Balance,
                      endsAt: nat, userInfo: Option<UserInfo>, description: Option<string>): (r: Result<Outcome>)
    requires StoreInvariant(config, otcs)
    requires config.active ==> LegsPoppable(sell, ask)
    requires config.active && SingleAsset(sell) && SingleAsset(ask) ==> |otcs| < Modulus
    ensures !config.active ==> r == Err(Stopped)
    ensures config.active && !(SingleAsset(sell) && SingleAsset(ask)) ==> r == Err(TooManyDenoms)
    ensures r.Ok? <==> config.active && SingleAsset(sell) && SingleAsset(ask)
    ensures r.Ok? ==>
      var id := r.value.config.index;
      && id !in otcs
      && FirstFreeAlong(otcs.Keys, config.index, id)
      && r.value.config == config.(index := id)
      && r.value.otcs.Keys == otcs.Keys + {id}
      && |r.value.otcs| == |otcs| + 1
      && (forall other :: other in otcs ==> r.value.otcs[other] == otcs[other])
      && r.value.otcs[id] == NewOffer(seller, sell, ask, endsAt, userInfo, description).value
      && r.value.response == Response([], "create_new_otc", Some(NewOtcResponse(id, r.value.otcs[id])))
      && StoreInvariant(r.value.config, r.value.otcs)
  {
    if !config.active then Err(Stopped)
    else
      var built := NewOffer(seller, sell, ask, endsAt, userInfo, description);
      if built.Err? then Err(built.error)
      else
        ProbeFindsFirstFree(otcs.Keys, config.index);
        var id := Probe(otcs.Keys, config.index, Modulus);
        InsertFresh(config, otcs, id, built.value);
        Ok(Outcome(config.(index := id), otcs[id := built.value],
                   Response([], "create_new_otc", Some(NewOtcResponse(id, built.value)))))
  }

  /** The payment covers the ask: the same kind of asset, a single coin of the
      asked denomination or the asked token, and at least the asked amount. */
  predicate Covers(payment: Balance, ask: Balance)
  {
    match (payment, ask)
    case (Native(paid), Native(asked)) =>
      |paid| == 1 && |asked| == 1 && paid[0].denom == asked[0].denom && paid[0].amount >= asked[0].amount
    case (Cw20(token, amount), Cw20(askedToken, askedAmount)) =>
      token == askedToken && amount >= askedAmount
    case _ => false
  }

  /** A native payment pops one coin, so it must carry one when its kind is
      the asked kind. */
  predicate PaymentPoppable(o: OtcInfo, payment: Balance, native: bool)
  {
    o.askNative == native && payment.Native? ==> |payment.coins| > 0
  }

  /** The validation chain and the two instructions of `try_swap`. A swap is
      accepted exactly when the payment covers the ask; then the whole payment
      goes to the seller (overpayment included) and the escrowed sell leg to
      the payer, in that order. */
  function Settle(o: OtcInfo, seller: Addr, payer: Addr, payment: Balance, native: bool): (r: Result<seq<CosmosMsg>>)
    requires WellFormed(o)
    requires native <==> payment.Native?
    requires PaymentPoppable(o, payment, native)
    ensures o.askNative != native ==> r == Err(WrongDenomination)
    ensures r.Ok? <==> Covers(payment, AskLeg(o))
    ensures r.Ok? ==> r.value == [TransferTo(seller, payment), TransferTo(payer, SellLeg(o))]
    ensures r.Ok? ==> |r.value| == 2
                      && Credit(r.value[0]) == (seller, payment)
                      && Credit(r.value[1]) == (payer, SellLeg(o))
    ensures r.Err? && native && o.askNative && |payment.coins| > 1 ==> r.error == PaymentTooManyDenoms
    ensures r.Err? && native && o.askNative && |payment.coins| == 1 && payment.coins[0].denom != o.askDenom.value
            ==> r.error == WrongDenomination
    ensures r.Err? && !native && !o.askNative && payment.address != o.askAddress.value ==> r.error == WrongToken
    ensures r.Err? && o.askNative == native && SameAsset(payment, AskLeg(o)) ==> r.error == InsufficientPayment
  {
    if o.askNative != native then Err(WrongDenomination)
    else
      var first: Result<CosmosMsg> :=
        if native then
          var coins := payment.coins;
          var coin := coins[|coins| - 1];
          if |coins| - 1 != 0 then Err(PaymentTooManyDenoms)
          else if coin.denom != o.askDenom.value then Err(WrongDenomination)
          else if coin.amount < o.askAmount then Err(InsufficientPayment)
          else assert coins == [coin]; Ok(TransferTo(seller, Native([coin])))
        else
          if payment.address != o.askAddress.value then Err(WrongToken)
          else if payment.amount < o.askAmount then Err(InsufficientPayment)
          else Ok(TransferTo(seller, payment));
      if first.Err? then Err(first.error)
      else Ok([first.value, TransferTo(payer, SellLeg(o))])
  }

  /** The payment names the asked asset (one coin of the asked denomination,
      or the asked token), whatever its amount. */
  predicate SameAsset(payment: Balance, ask: Balance)
  {
    match (payment, ask)
    case (Native(paid), Native(asked)) => |paid| == 1 && |asked| == 1 && paid[0].denom == asked[0].denom
    case (Cw20(token, _), Cw20(askedToken, _)) => token == askedToken
    case _ => false
  }

  /** The whole effect of `try_swap`: an unknown id fails, a rejected payment
      fails, and an accepted one deletes exactly that offer, leaves the config
      and every other offer as they were, and answers with the two transfers. */
  function SwapStep(config: State, otcs: map<nat, OtcInfo>, payer: Addr, otcId: nat, payment: Balance, native: bool): (r: Result<Outcome>)
    requires StoreInvariant(config, otcs)
    requires native <==> payment.Native?
    requires otcId in otcs ==> PaymentPoppable(otcs[otcId], payment, native)
    ensures otcId !in otcs ==> r == Err(NotFound)
    ensures r.Ok? <==> otcId in otcs && Covers(payment, AskLeg(otcs[otcId]))
    ensures r.Ok? ==>
      && r.value.config == config
      && r.value.otcs == otcs - {otcId}
      && |r.value.otcs| == |otcs| - 1
      && r.value.response.attrMethod == "swap"
      && r.value.response.data == None
      && r.value.response.messages == [TransferTo(otcs[otcId].seller, payment), TransferTo(payer, SellLeg(otcs[otcId]))]
      && |r.value.response.messages| == 2
      && Credit(r.value.response.messages[0]) == (otcs[otcId].seller, payment)
      && Credit(r.value.response.messages[1]) == (payer, SellLeg(otcs[otcId]))
      && StoreInvariant(r.value.config, r.value.otcs)
  {
    if otcId !in otcs then Err(NotFound)
    else
      var o := otcs[otcId];
      var settled := Settle(o, o.seller, payer, payment, native);
      if settled.Err? then Err(settled.error)
      else Ok(Outcome(config, otcs - {otcId}, Response(settled.value, "swap", None)))
  }

  /** A swap that covers the ask of an offer just created undoes the create
      on the store, pays the seller the whole payment and releases to the
      payer exactly the balance the seller deposited. */
  lemma CreateThenSwap(config: State, otcs: map<nat, OtcInfo>, seller: Addr, sell: Balance, ask: Balance,
                       endsAt: nat, userInfo: Option<UserInfo>, description: Option<string>,
                       payer: Addr, payment: Balance, native: bool)
    requires StoreInvariant(config, otcs)
    requires config.active && SingleAsset(sell) && SingleAsset(ask) && |otcs| < Modulus
    requires native <==> payment.Native?
    requires Covers(payment, ask)
    ensures var c := CreateStep(config, otcs, seller, sell, ask, endsAt, userInfo, description);
            && c.Ok?
            && var s := SwapStep(c.value.config, c.value.otcs, payer, c.value.config.index, payment, native);
            && s.Ok?
            && s.value.otcs == otcs
            && Credit(s.value.response.messages[0]) == (seller, payment)
            && Credit(s.value.response.messages[1]) == (payer, sell)
  {
  }

  // ---------------------------------------------------------------------
  // Listing
  // ---------------------------------------------------------------------

  /** Ascending scan of the ids in `[lo, hi)`: exactly the stored pairs in
      that range, ids strictly increasing. */
  function Scan(otcs: map<nat, OtcInfo>, lo: nat, hi: nat): (r: seq<(nat, OtcInfo)>)
    decreases hi - lo
    ensures forall i :: 0 <= i < |r| ==> lo <= r[i].0 < hi && r[i].0 in otcs && otcs[r[i].0] == r[i].1
    ensures forall i, j :: 0 <= i < j < |r| ==> r[i].0 < r[j].0
    ensures forall id :: lo <= id < hi && id in otcs ==> (id, otcs[id]) in r
  {
    if lo >= hi then []
    else
      var rest := Scan(otcs, lo + 1, hi);
      if lo in otcs then [(lo, otcs[lo])] + rest else rest
  }

  /** `query_otcs`: every stored `(id, offer)` pair, in strictly ascending id order. */
  function QueryOtcs(otcs: map<nat, OtcInfo>): (r: seq<(nat, OtcInfo)>)
    requires forall id :: id in otcs ==> id < IdSpace
    ensures forall i :: 0 <= i < |r| ==> r[i].0 in otcs && otcs[r[i].0] == r[i].1
    ensures forall i, j :: 0 <= i < j < |r| ==> r[i].0 < r[j].0
    ensures forall id :: id in otcs ==> (id, otcs[id]) in r
  {
    Scan(otcs, 0, IdSpace)
  }

  /** Strictly ascending and sound, a listing has one entry per stored offer. */
  lemma {:induction false} QueryOtcsLength(otcs: map<nat, OtcInfo>)
    requires forall id :: id in otcs ==> id < IdSpace
    ensures |QueryOtcs(otcs)| == |otcs|
  {
    var r := QueryOtcs(otcs);
    ListedIds(otcs, r);
    DistinctIdsCount(r);
  }

  /** A sound and complete listing names exactly the stored ids. */
  lemma ListedIds(otcs: map<nat, OtcInfo>, r: seq<(nat, OtcInfo)>)
    requires forall i :: 0 <= i < |r| ==> r[i].0 in otcs
    requires forall id :: id in otcs ==> (id, otcs[id]) in r
    ensures (set i | 0 <= i < |r| :: r[i].0) == otcs.Keys
  {
  }

  lemma {:induction false} DistinctIdsCount(r: seq<(nat, OtcInfo)>)
    requires forall i, j :: 0 <= i < j < |r| ==> r[i].0 < r[j].0
    ensures |set i | 0 <= i < |r| :: r[i].0| == |r|
  {
    if |r| > 0 {
      var init := r[..|r| - 1];
      DistinctIdsCount(init);
      var last := r[|r| - 1].0;
      assert (set i | 0 <= i < |r| :: r[i].0) == (set i | 0 <= i < |init| :: init[i].0) + {last};
      assert last !in (set i | 0 <= i < |init| :: init[i].0);
    }
  }

  // ---------------------------------------------------------------------
  // Dispatch
  // ---------------------------------------------------------------------

  /** The fields of a create request. */
  datatype NewOtc = NewOtc(askBalance: Balance, endsAt: nat, userInfo: Option<UserInfo>, description: Option<string>)

  /** The message a cw20 token contract forwards to us (already decoded). */
  datatype ReceiveMsg = ReceiveCreate(create: NewOtc) | ReceiveSwap(otcId: nat)

  datatype ExecuteMsg =
    | Create(create: NewOtc)
    | Swap(otcId: nat)
    | Receive(wrapper: Cw20ReceiveMsg<ReceiveMsg>)

  /** A call, normalised: who acts, the balance they brought, and whether it
      arrived as native funds. */
  datatype Request =
    | CreateRequest(seller: Addr, sell: Balance, create: NewOtc)
    | SwapRequest(payer: Addr, otcId: nat, payment: Balance, native: bool)

  /** `execute`/`execute_receive`: native funds become a native balance from
      the caller; a cw20 hook becomes a cw20 balance of the calling token
      contract for the hook's amount, acting for the hook's original sender.
      The `native` flag always agrees with the balance's kind. */
  function RequestOf(info: MessageInfo, msg: ExecuteMsg): (r: Request)
    ensures r.SwapRequest? ==> (r.native <==> r.payment.Native?)
    ensures msg.Create? ==> r == CreateRequest(info.sender, Native(info.funds), msg.create)
    ensures msg.Swap? ==> r == SwapRequest(info.sender, msg.otcId, Native(info.funds), true)
    ensures msg.Receive? ==>
      && (r.CreateRequest? <==> msg.wrapper.msg.ReceiveCreate?)
      && (r.CreateRequest? ==> r == CreateRequest(msg.wrapper.sender, Cw20(info.sender, msg.wrapper.amount), msg.wrapper.msg.create))
      && (r.SwapRequest? ==> r == SwapRequest(msg.wrapper.sender, msg.wrapper.msg.otcId, Cw20(info.sender, msg.wrapper.amount), false))
  {
    match msg
    case Create(create) => CreateRequest(info.sender, Native(info.funds), create)
    case Swap(otcId) => SwapRequest(info.sender, otcId, Native(info.funds), true)
    case Receive(wrapper) =>
      var balance := Cw20(info.sender, wrapper.amount);
      match wrapper.msg
      case ReceiveCreate(create) => CreateRequest(wrapper.sender, balance, create)
      case ReceiveSwap(otcId) => SwapRequest(wrapper.sender, otcId, balance, false)
  }

  /** The request can run without a panic and, if it would store an offer,
      there is room for it. */
  predicate ExecutePre(config: State, otcs: map<nat, OtcInfo>, req: Request)
  {
    match req
    case CreateRequest(_, sell, create) =>
      && (config.active ==> LegsPoppable(sell, create.askBalance))
      && (config.active && SingleAsset(sell) && SingleAsset(create.askBalance) ==> |otcs| < Modulus)
    case SwapRequest(_, otcId, payment, native) =>
      otcId in otcs ==> PaymentPoppable(otcs[otcId], payment, native)
  }

  /** The whole effect of one `execute` call. */
  function ExecuteStep(config: State, otcs: map<nat, OtcInfo>, info: MessageInfo, msg: ExecuteMsg): (r: Result<Outcome>)
    requires StoreInvariant(config, otcs)
    requires ExecutePre(config, otcs, RequestOf(info, msg))
    ensures r.Ok? ==> StoreInvariant(r.value.config, r.value.otcs)
  {
    match RequestOf(info, msg)
    case CreateRequest(seller, sell, c) =>
      CreateStep(config, otcs, seller, sell, c.askBalance, c.endsAt, c.userInfo, c.description)
    case SwapRequest(payer, otcId, payment, native) =>
      SwapStep(config, otcs, payer, otcId, payment, native)
  }

  /** A call's observable result matches a step: on success its state and
      response are committed, on failure nothing is written. */
  predicate Commits(step: Result<Outcome>, r: Result<Response>,
                    config: State, otcs: map<nat, OtcInfo>, config0: State, otcs0: map<nat, OtcInfo>)
  {
    match step
    case Ok(out) => r == Ok(out.response) && config == out.config && otcs == out.otcs
    case Err(e) => r == Err(e) && config == config0 && otcs == otcs0
  }

  // ---------------------------------------------------------------------
  // The contract's storage and entry points
  // ---------------------------------------------------------------------

  class OtcContract {
    /** `STATE`: the config singleton. */
    var config: State
    /** `OTCS`: the offer store. */
    var otcs: map<nat, OtcInfo>

    ghost predicate Valid()
      reads this
    {
      StoreInvariant(config, otcs)
    }

    /** The storage `instantiate` leaves behind: active, cursor 0, no offers. */
    constructor (admin: Addr)
      ensures Valid()
      ensures config == InitialState(admin) && otcs == map[]
    {
      config := InitialState(admin);
      otcs := map[];
    }

    /** The probe loop of `try_create_otc`: step the cursor, wrapping at
        `Modulus`, while its slot is taken. It stops at the first free slot
        along the probe sequence, which some free slot guarantees. */
    method ProbeFrom(index: nat) returns (id: nat)
      requires Valid()
      requires index < Modulus && |otcs| < Modulus
      ensures id == Probe(otcs.Keys, index, Modulus)
      ensures id !in otcs && id < Modulus
    {
      ghost var keys := otcs.Keys;
      ghost var d := FirstFreeIndex(keys, index);
      ghost var k: nat := 0;
      id := index;
      while id in otcs
        invariant id == ProbeSlot(index, k)
        invariant k <= d
        decreases d - k
      {
        ProbeSlotShift(index, k);
        id := (id + 1) % Modulus;
        k := k + 1;
      }
      assert k == d;
      ProbeReaches(keys, index, d, Modulus);
    }

    /** `try_create_otc`. */
    method CreateOtc(seller: Addr, sell: Balance, ask: Balance, endsAt: nat,
                     userInfo: Option<UserInfo>, description: Option<string>) returns (r: Result<Response>)
      requires Valid()
      requires config.active ==> LegsPoppable(sell, ask)
      requires config.active && SingleAsset(sell) && SingleAsset(ask) ==> |otcs| < Modulus
      modifies this
      ensures Valid()
      ensures Commits(CreateStep(old(config), old(otcs), seller, sell, ask, endsAt, userInfo, description),
                      r, config, otcs, old(config), old(otcs))
    {
      var cfg := config;
      if !cfg.active {
        return Err(Stopped);
      }
      var built := NewOffer(seller, sell, ask, endsAt, userInfo, description);
      if built.Err? {
        return Err(built.error);
      }
      var newOtc := built.value;

      var id := ProbeFrom(cfg.index);
      cfg := cfg.(index := id);
      ghost var step := CreateStep(config, otcs, seller, sell, ask, endsAt, userInfo, description);
      assert step == Ok(Outcome(cfg, otcs[id := newOtc],
                                Response([], "create_new_otc", Some(NewOtcResponse(id, newOtc)))));
      otcs := otcs[cfg.index := newOtc];
      config := cfg;
      r := Ok(Response([], "create_new_otc", Some(NewOtcResponse(cfg.index, newOtc))));
    }

    /** `try_swap`. */
    method Swap(payer: Addr, otcId: nat, payment: Balance, native: bool) returns (r: Result<Response>)
      requires Valid()
      requires native <==> payment.Native?
      requires otcId in otcs ==> PaymentPoppable(otcs[otcId], payment, native)
      modifies this
      ensures Valid()
      ensures Commits(SwapStep(old(config), old(otcs), payer, otcId, payment, native),
                      r, config, otcs, old(config), old(otcs))
    {
      if otcId !in otcs {
        return Err(NotFound);
      }
      var otcInfo := otcs[otcId];
      var settled := Settle(otcInfo, otcInfo.seller, payer, payment, native);
      if settled.Err? {
        return Err(settled.error);
      }
      otcs := otcs - {otcId};
      r := Ok(Response(settled.value, "swap", None));
    }

    /** `execute`, with `execute_receive` for cw20 hooks. */
    method Execute(info: MessageInfo, msg: ExecuteMsg) returns (r: Result<Response>)
      requires Valid()
      requires ExecutePre(config, otcs, RequestOf(info, msg))
      modifies this
      ensures Valid()
      ensures Commits(ExecuteStep(old(config), old(otcs), info, msg), r, config, otcs, old(config), old(otcs))
    {
      match RequestOf(info, msg)
      case CreateRequest(seller, sell, c) =>
        r := CreateOtc(seller, sell, c.askBalance, c.endsAt, c.userInfo, c.description);
      case SwapRequest(payer, otcId, payment, native) =>
        r := Swap(payer, otcId, payment, native);
    }

    /** `query_otcs`. */
    method Query() returns (listing: seq<(nat, OtcInfo)>)
      requires Valid()
      ensures listing == QueryOtcs(otcs)
    {
      listing := QueryOtcs(otcs);
    }
  }

  // ---------------------------------------------------------------------
  // Scenarios of the source's tests
  // ---------------------------------------------------------------------

  /** The `can_create_native` scenario: right after `instantiate`, selling one
      native coin for another gives id 0, and the offer echoed back carries
      both legs and the pass-through fields as given. */
  method CreateNativeAfterInstantiate(sellDenom: string, sellAmount: nat, askDenom: string, askAmount: nat)
    returns (r: Result<Response>)
    ensures r.Ok? && r.value.attrMethod == "create_new_otc" && r.value.messages == []
    ensures r.Ok? ==> r.value.data.Some? && r.value.data.value.id == 0
    ensures r.Ok? && r.value.data.Some? ==>
      var o := r.value.data.value.otc;
      && o.seller == "alice"
      && o.askNative && o.askAmount == askAmount && o.askDenom == Some(askDenom)
      && o.sellNative && o.sellAmount == sellAmount && o.sellDenom == Some(sellDenom)
      && o.endsAt == 100 && o.userInfo == None && o.description == None
  {
    var contract := new OtcContract("creator");
    var info := MessageInfo("alice", [Coin(sellDenom, sellAmount)]);
    var msg := Create(NewOtc(Native([Coin(askDenom, askAmount)]), 100, None, None));
    r := contract.Execute(info, msg);
  }
  /** Sell 5 `token_1` for 10 `token_2`, then try three swaps: 1 `token_2` is
      too little, 10 `token_3` is the wrong denomination, and 10 `token_2`
      settles, paying the seller and releasing the 5 `token_1` to the payer.
      Afterwards the listing is empty. */
  method SwapAfterCreate() returns (low: Result<Response>, wrong: Result<Response>, paid: Result<Response>,
                                    listing: seq<(nat, OtcInfo)>)
    ensures low == Err(InsufficientPayment)
    ensures wrong == Err(WrongDenomination)
    ensures paid.Ok? && |paid.value.messages| == 2
    ensures paid.Ok? && |paid.value.messages| == 2 ==>
      && Credit(paid.value.messages[0]) == ("alice", Native([Coin("token_2", 10)]))
      && Credit(paid.value.messages[1]) == ("bob", Native([Coin("token_1", 5)]))
    ensures listing == []
  {
    var contract := new OtcContract("creator");
    var created := contract.CreateOtc("alice", Native([Coin("token_1", 5)]), Native([Coin("token_2", 10)]), 0, None, None);
    assert contract.otcs.Keys == {0};
    low := contract.Swap("bob", 0, Native([Coin("token_2", 1)]), true);
    wrong := contract.Swap("bob", 0, Native([Coin("token_3", 10)]), true);
    paid := contract.Swap("bob", 0, Native([Coin("token_2", 10)]), true);
    assert contract.otcs == map[];
    listing := contract.Query();
    QueryOtcsLength(map[]);
  }
}

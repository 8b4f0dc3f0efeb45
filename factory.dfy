/** The factory variant of offer creation: the same offer construction, but
    ids come from a `u64` counter that only grows, and each offer is stored
    under the 8-byte big-endian encoding of its id. */
module Factory {
  import opened Cw
  import opened OtcState

  /** Ids are `u64`. */
  const IdSpace: nat := 0x1_0000_0000_0000_0000

  /** `u64::to_be_bytes` yields this many bytes. */
  const KeyWidth: nat := 8

  type Byte = b: nat | b < 256

  function Pow256(n: nat): (p: nat)
    ensures p > 0
  {
    if n == 0 then 1 else 256 * Pow256(n - 1)
  }

  /** The `width`-byte big-endian encoding of `n`, most significant byte first. */
  function BigEndian(n: nat, width: nat): (bytes: seq<Byte>)
    requires n < Pow256(width)
    ensures |bytes| == width
  {
    if width == 0 then [] else BigEndian(n / 256, width - 1) + [n % 256]
  }

  /** The number a big-endian byte string stands for. */
  function FromBigEndian(bytes: seq<Byte>): nat
  {
    if bytes == [] then 0
    else FromBigEndian(bytes[..|bytes| - 1]) * 256 + bytes[|bytes| - 1]
  }

  /** Decoding undoes the encoding. */
  lemma {:induction false} BigEndianRoundTrip(n: nat, width: nat)
    requires n < Pow256(width)
    ensures FromBigEndian(BigEndian(n, width)) == n
  {
    if width > 0 {
      BigEndianRoundTrip(n / 256, width - 1);
      var bytes := BigEndian(n, width);
      assert bytes[..|bytes| - 1] == BigEndian(n / 256, width - 1);
    }
  }

  /** Lexicographic order on byte strings of equal length: the order in which
      the store iterates its keys. */
  predicate LexLess(x: seq<Byte>, y: seq<Byte>)
    requires |x| == |y|
  {
    |x| > 0 && (x[0] < y[0] || (x[0] == y[0] && LexLess(x[1..], y[1..])))
  }

  /** Extending two strings by one byte each: the prefixes decide, and on
      equal prefixes the last bytes do. */
  lemma {:induction false} LexLessAppend(x: seq<Byte>, y: seq<Byte>, c: Byte, d: Byte)
    requires |x| == |y|
    ensures LexLess(x + [c], y + [d]) <==> LexLess(x, y) || (x == y && c < d)
  {
    if |x| > 0 {
      assert (x + [c])[1..] == x[1..] + [c];
      assert (y + [d])[1..] == y[1..] + [d];
      LexLessAppend(x[1..], y[1..], c, d);
      if x[0] == y[0] && x[1..] == y[1..] {
        assert x == [x[0]] + x[1..] && y == [y[0]] + y[1..];
      }
    }
  }

  /** One more low digit: the high parts decide, and on equal high parts
      the low digits do. */
  lemma DigitCompare(a: nat, b: nat, c: Byte, d: Byte)
    ensures a * 256 + c < b * 256 + d <==> a < b || (a == b && c < d)
  {
  }

  /** Equal-length byte strings with the same number are the same string. */
  lemma {:induction false} FromBigEndianInjective(x: seq<Byte>, y: seq<Byte>)
    requires |x| == |y| && FromBigEndian(x) == FromBigEndian(y)
    ensures x == y
  {
    if |x| > 0 {
      var n := |x| - 1;
      DigitCompare(FromBigEndian(x[..n]), FromBigEndian(y[..n]), x[n], y[n]);
      DigitCompare(FromBigEndian(y[..n]), FromBigEndian(x[..n]), y[n], x[n]);
      FromBigEndianInjective(x[..n], y[..n]);
      assert x == x[..n] + [x[n]] && y == y[..n] + [y[n]];
    }
  }

  /** Byte strings of one length sort exactly as the numbers they stand for. */
  lemma {:induction false} LexLessIsNumericLess(x: seq<Byte>, y: seq<Byte>)
    requires |x| == |y|
    ensures LexLess(x, y) <==> FromBigEndian(x) < FromBigEndian(y)
  {
    if |x| > 0 {
      var n := |x| - 1;
      assert x == x[..n] + [x[n]] && y == y[..n] + [y[n]];
      LexLessAppend(x[..n], y[..n], x[n], y[n]);
      LexLessIsNumericLess(x[..n], y[..n]);
      DigitCompare(FromBigEndian(x[..n]), FromBigEndian(y[..n]), x[n], y[n]);
      if FromBigEndian(x[..n]) == FromBigEndian(y[..n]) {
        FromBigEndianInjective(x[..n], y[..n]);
      }
    }
  }

  /** The store key of id `index`: `index.to_be_bytes()`. */
  function Key(index: nat): (key: seq<Byte>)
    requires index < IdSpace
    ensures |key| == KeyWidth && FromBigEndian(key) == index
  {
    assert Pow256(KeyWidth) == IdSpace;
    BigEndianRoundTrip(index, KeyWidth);
    BigEndian(index, KeyWidth)
  }

  /** Key order is id order. */
  lemma KeyOrder(a: nat, b: nat)
    requires a < IdSpace && b < IdSpace
    ensures LexLess(Key(a), Key(b)) <==> a < b
  {
    LexLessIsNumericLess(Key(a), Key(b));
  }

  /** The factory's config singleton; `index` is the next id to hand out. */
  datatype FactoryState = FactoryState(admin: Addr, otcCodeHash: nat, index: nat, active: bool)

  /** What every reachable state satisfies: one offer per id handed out so
      far, each stored under an 8-byte key whose id is below the counter, and
      each well formed. */
  predicate FactoryInvariant(config: FactoryState, otcs: map<seq<Byte>, OtcInfo>)
  {
    && config.index < IdSpace
    && |otcs| == config.index
    && forall key :: key in otcs ==> |key| == KeyWidth && FromBigEndian(key) < config.index && WellFormed(otcs[key])
  }

  /** The state and response a successful call commits. */
  datatype FactoryOutcome = FactoryOutcome(config: FactoryState, otcs: map<seq<Byte>, OtcInfo>, response: Response)

  /** The whole effect of the factory's `try_create_otc`. It fails while
      inactive and when a native leg holds several coins; otherwise it stores
      the offer under the key of the current counter, a key not used before
      (and greater than every stored key, see `StoredKeysSortFirst`), bumps the counter by one and answers
      with no messages. */
  function FactoryCreateStep(config: FactoryState, otcs: map<seq<Byte>, OtcInfo>, seller: Addr, sell: Balance, ask: Balance,
                             endsAt: nat, userInfo: Option<UserInfo>, description: Option<string>): (r: Result<FactoryOutcome>)
    requires FactoryInvariant(config, otcs)
    requires config.active ==> LegsPoppable(sell, ask)
    requires config.active && SingleAsset(sell) && SingleAsset(ask) ==> config.index + 1 < IdSpace
    ensures !config.active ==> r == Err(Stopped)
    ensures config.active && !(SingleAsset(sell) && SingleAsset(ask)) ==> r == Err(TooManyDenoms)
    ensures r.Ok? <==> config.active && SingleAsset(sell) && SingleAsset(ask)
    ensures r.Ok? ==>
      var key := Key(config.index);
      && key !in otcs
      && r.value.config == config.(index := config.index + 1)
      && r.value.otcs == otcs[key := NewOffer(seller, sell, ask, endsAt, userInfo, description).value]
      && |r.value.otcs| == |otcs| + 1
      && r.value.response == Response([], "create_new_otc", None)
      && FactoryInvariant(r.value.config, r.value.otcs)
  {
    if !config.active then Err(Stopped)
    else
      var built := NewOffer(seller, sell, ask, endsAt, userInfo, description);
      if built.Err? then Err(built.error)
      else
        InsertUnderNextKey(config, otcs, built.value);
        Ok(FactoryOutcome(config.(index := config.index + 1), otcs[Key(config.index) := built.value],
                          Response([], "create_new_otc", None)))
  }

  /** Every stored key sorts before the key of the counter. */
  lemma StoredKeysSortFirst(config: FactoryState, otcs: map<seq<Byte>, OtcInfo>)
    requires FactoryInvariant(config, otcs)
    ensures forall other :: other in otcs ==> LexLess(other, Key(config.index))
  {
    var key := Key(config.index);
    forall other | other in otcs ensures LexLess(other, key) {
      LexLessIsNumericLess(other, key);
    }
  }

  /** Storing under the key of the counter and bumping the counter keeps the
      invariant, and that key was unused. */
  lemma InsertUnderNextKey(config: FactoryState, otcs: map<seq<Byte>, OtcInfo>, offer: OtcInfo)
    requires FactoryInvariant(config, otcs)
    requires WellFormed(offer) && config.index + 1 < IdSpace
    ensures Key(config.index) !in otcs
    ensures |otcs[Key(config.index) := offer]| == |otcs| + 1
    ensures FactoryInvariant(config.(index := config.index + 1), otcs[Key(config.index) := offer])
  {
  }

  /** A run of create calls from one state: the final config and store, and
      how many of the calls created an offer. */
  datatype Run = Run(config: FactoryState, otcs: map<seq<Byte>, OtcInfo>, created: nat)

  /** Every request of a run can be popped without a panic. */
  predicate AllPoppable(reqs: seq<CreateRequest>)
  {
    forall i :: 0 <= i < |reqs| ==> LegsPoppable(reqs[i].sell, reqs[i].ask)
  }

  lemma AllPoppableTail(reqs: seq<CreateRequest>)
    requires AllPoppable(reqs) && reqs != []
    ensures AllPoppable(reqs[1..])
  {
  }

  /** Applying create calls one after another (a failed call writes
      nothing). The counter moves on by exactly the number of offers created,
      the store grows by the same number, and the invariant holds at the
      end: every stored key is the key of an id below the final counter. */
  function CreateRun(config: FactoryState, otcs: map<seq<Byte>, OtcInfo>, reqs: seq<CreateRequest>): (r: Run)
    requires FactoryInvariant(config, otcs)
    requires config.index + |reqs| < IdSpace
    requires AllPoppable(reqs)
    ensures FactoryInvariant(r.config, r.otcs)
    ensures r.created <= |reqs|
    ensures r.config.index == config.index + r.created
    ensures |r.otcs| == |otcs| + r.created
    decreases |reqs|
  {
    if reqs == [] then Run(config, otcs, 0)
    else
      var c := reqs[0];
      var step := FactoryCreateStep(config, otcs, c.seller, c.sell, c.ask, c.endsAt, c.userInfo, c.description);
      AllPoppableTail(reqs);
      if step.Err? then CreateRun(config, otcs, reqs[1..])
      else
        var rest := CreateRun(step.value.config, step.value.otcs, reqs[1..]);
        Run(rest.config, rest.otcs, rest.created + 1)
  }

  /** No key is ever reused or dropped: every key stored before a run is
      still stored after it, with the offers created in between under new
      keys. */
  lemma {:induction false} CreateRunKeeps(config: FactoryState, otcs: map<seq<Byte>, OtcInfo>, reqs: seq<CreateRequest>)
    requires FactoryInvariant(config, otcs)
    requires config.index + |reqs| < IdSpace
    requires AllPoppable(reqs)
    ensures otcs.Keys <= CreateRun(config, otcs, reqs).otcs.Keys
    ensures forall k :: k in otcs ==> CreateRun(config, otcs, reqs).otcs[k] == otcs[k]
    decreases |reqs|
  {
    if reqs != [] {
      var c := reqs[0];
      var step := FactoryCreateStep(config, otcs, c.seller, c.sell, c.ask, c.endsAt, c.userInfo, c.description);
      AllPoppableTail(reqs);
      if step.Err? {
        CreateRunKeeps(config, otcs, reqs[1..]);
      } else {
        assert otcs.Keys <= step.value.otcs.Keys;
        assert forall k :: k in otcs ==> step.value.otcs[k] == otcs[k];
        CreateRunKeeps(step.value.config, step.value.otcs, reqs[1..]);
      }
    }
  }

  /** From the state `instantiate` leaves, the counter after a run equals
      the number of offers created, which is the number of offers stored. */
  lemma CounterCountsCreates(admin: Addr, otcCodeHash: nat, reqs: seq<CreateRequest>)
    requires |reqs| < IdSpace
    requires AllPoppable(reqs)
    ensures var r := CreateRun(FactoryState(admin, otcCodeHash, 0, true), map[], reqs);
            r.config.index == r.created == |r.otcs|
  {
  }

  /** The fields of a create request. */
  datatype FactoryMsg =
    | NewOtc(askBalance: Balance, endsAt: nat, userInfo: Option<UserInfo>, description: Option<string>)
    | Receive(wrapper: Cw20ReceiveMsg<FactoryMsg>)

  /** A create call, normalised: who sells, and what. */
  datatype CreateRequest = CreateRequest(seller: Addr, sell: Balance, ask: Balance, endsAt: nat,
                                         userInfo: Option<UserInfo>, description: Option<string>)

  /** `execute`/`execute_receive`: attached native funds are sold by the
      caller; a cw20 hook sells the hook's amount of the calling token contract
      for the hook's original sender, and only a `NewOtc` may be wrapped. */
  function CreateRequestOf(info: MessageInfo, msg: FactoryMsg): (r: Result<CreateRequest>)
    ensures msg.NewOtc? ==>
      r == Ok(CreateRequest(info.sender, Native(info.funds), msg.askBalance, msg.endsAt, msg.userInfo, msg.description))
    ensures msg.Receive? ==>
      && (r.Ok? <==> msg.wrapper.msg.NewOtc?)
      && (r.Err? ==> r.error == UnknownReceiveMessage)
      && (r.Ok? ==> r.value == CreateRequest(msg.wrapper.sender, Cw20(info.sender, msg.wrapper.amount),
                                             msg.wrapper.msg.askBalance, msg.wrapper.msg.endsAt,
                                             msg.wrapper.msg.userInfo, msg.wrapper.msg.description))
  {
    match msg
    case NewOtc(ask, endsAt, userInfo, description) =>
      Ok(CreateRequest(info.sender, Native(info.funds), ask, endsAt, userInfo, description))
    case Receive(wrapper) =>
      var sell := Cw20(info.sender, wrapper.amount);
      match wrapper.msg
      case NewOtc(ask, endsAt, userInfo, description) =>
        Ok(CreateRequest(wrapper.sender, sell, ask, endsAt, userInfo, description))
      case _ => Err(UnknownReceiveMessage)
  }

  /** The request can run without a panic or a counter overflow. */
  predicate FactoryExecutePre(config: FactoryState, req: Result<CreateRequest>)
  {
    req.Ok? ==>
      && (config.active ==> LegsPoppable(req.value.sell, req.value.ask))
      && (config.active && SingleAsset(req.value.sell) && SingleAsset(req.value.ask) ==> config.index + 1 < IdSpace)
  }

  /** The whole effect of one factory `execute` call. */
  function FactoryExecuteStep(config: FactoryState, otcs: map<seq<Byte>, OtcInfo>, info: MessageInfo, msg: FactoryMsg): (r: Result<FactoryOutcome>)
    requires FactoryInvariant(config, otcs)
    requires FactoryExecutePre(config, CreateRequestOf(info, msg))
    ensures r.Ok? ==> FactoryInvariant(r.value.config, r.value.otcs) && r.value.config.index == config.index + 1
  {
    match CreateRequestOf(info, msg)
    case Err(e) => Err(e)
    case Ok(c) => FactoryCreateStep(config, otcs, c.seller, c.sell, c.ask, c.endsAt, c.userInfo, c.description)
  }

  /** A call's observable result matches a step: on success its state and
      response are committed, on failure nothing is written. */
  predicate FactoryCommits(step: Result<FactoryOutcome>, r: Result<Response>,
                           config: FactoryState, otcs: map<seq<Byte>, OtcInfo>,
                           config0: FactoryState, otcs0: map<seq<Byte>, OtcInfo>)
  {
    match step
    case Ok(out) => r == Ok(out.response) && config == out.config && otcs == out.otcs
    case Err(e) => r == Err(e) && config == config0 && otcs == otcs0
  }

  class FactoryContract {
    /** `STATE`: the config singleton. */
    var config: FactoryState
    /** `OTCS`: offers under big-endian id keys. */
    var otcs: map<seq<Byte>, OtcInfo>

    ghost predicate Valid()
      reads this
    {
      FactoryInvariant(config, otcs)
    }

    /** The storage `instantiate` leaves behind: active, counter 0, no offers. */
    constructor (admin: Addr, otcCodeHash: nat)
      ensures Valid()
      ensures config == FactoryState(admin, otcCodeHash, 0, true) && otcs == map[]
    {
      config := FactoryState(admin, otcCodeHash, 0, true);
      otcs := map[];
    }

    /** `try_create_otc`. */
    method CreateOtc(seller: Addr, sell: Balance, ask: Balance, endsAt: nat,
                     userInfo: Option<UserInfo>, description: Option<string>) returns (r: Result<Response>)
      requires Valid()
      requires config.active ==> LegsPoppable(sell, ask)
      requires config.active && SingleAsset(sell) && SingleAsset(ask) ==> config.index + 1 < IdSpace
      modifies this
      ensures Valid()
      ensures FactoryCommits(FactoryCreateStep(old(config), old(otcs), seller, sell, ask, endsAt, userInfo, description),
                             r, config, otcs, old(config), old(otcs))
    {
      var cfg := config;
      if !cfg.active {
        return Err(Stopped);
      }
      var built := NewOffer(seller, sell, ask, endsAt, userInfo, description);
      if built.Err? {
        return Err(built.error);
      }
      ghost var step := FactoryCreateStep(config, otcs, seller, sell, ask, endsAt, userInfo, description);
      otcs := otcs[Key(cfg.index) := built.value];
      cfg := cfg.(index := cfg.index + 1);
      config := cfg;
      r := Ok(Response([], "create_new_otc", None));
    }

    /** `execute`, with `execute_receive` for cw20 hooks. */
    method Execute(info: MessageInfo, msg: FactoryMsg) returns (r: Result<Response>)
      requires Valid()
      requires FactoryExecutePre(config, CreateRequestOf(info, msg))
      modifies this
      ensures Valid()
      ensures FactoryCommits(FactoryExecuteStep(old(config), old(otcs), info, msg), r, config, otcs, old(config), old(otcs))
    {
      match CreateRequestOf(info, msg)
      case Err(e) =>
        r := Err(e);
      case Ok(c) =>
        r := CreateOtc(c.seller, c.sell, c.ask, c.endsAt, c.userInfo, c.description);
    }
  }
}

/** The processors that adjust a message's amount to the destination's precision, in place. */
module MessageProcessors {
  import opened Bytes
  import opened Decimals
  import opened Messages

  /** What `args ...interface{}` may hold: the map types that are accepted, or anything else. */
  datatype Arg =
    | DomainDecimals(byDomain: map<uint8, uint8>)
    | TokenDecimals(byToken: map<uint8, map<ResourceID, uint8>>)
    | Clients(byChain: map<uint8, TokenChain>)
    | Transactors
    | EvmConfigs(bridges: map<uint8, Address>)
    | OtherArg

  /** What a chain answers to the look-ups of one call; none stands for a failed one. */
  datatype TokenChain = TokenChain(handlerOf: (Address, ResourceID) -> Option<Address>,
                                   tokenOf: (Address, ResourceID) -> Option<Address>,
                                   decimalsOf: Address -> Option<uint8>)

  /** The address that stands for a chain's own currency. */
  const NATIVE_TOKEN: Address := Zeros(19) + [1]
  const NATIVE_DECIMALS: uint8 := 18

  /** The precisions of source and destination. */
  datatype Precisions = Precisions(source: uint8, destination: uint8)

  function DomainPrecisions(args: seq<Arg>, m: Message): Option<Precisions> {
    if |args| > 0 && args[0].DomainDecimals? && m.source in args[0].byDomain && m.destination in args[0].byDomain
    then Some(Precisions(args[0].byDomain[m.source], args[0].byDomain[m.destination]))
    else None
  }

  function TokenPrecisions(args: seq<Arg>, m: Message): Option<Precisions> {
    if && |args| > 0 && args[0].TokenDecimals?
       && m.source in args[0].byToken && m.resourceId in args[0].byToken[m.source]
       && m.destination in args[0].byToken && m.resourceId in args[0].byToken[m.destination]
    then Some(Precisions(args[0].byToken[m.source][m.resourceId], args[0].byToken[m.destination][m.resourceId]))
    else None
  }

  /** The precision of a resource's token: the bridge names the handler, the handler names the token, and
      the token, unless it is the native one, knows its precision. */
  function PrecisionOn(chain: TokenChain, bridge: Address, r: ResourceID): Option<uint8> {
    var handler := chain.handlerOf(bridge, r);
    if handler.None? then None
    else
      var token := chain.tokenOf(handler.value, r);
      if token.None? then None
      else if token.value == NATIVE_TOKEN then Some(NATIVE_DECIMALS)
      else chain.decimalsOf(token.value)
  }

  /** The precisions the automatic processor finds. A missing client panics when it is first asked, and
      the destination's is asked after the source's bridge has answered. */
  function OnChainPrecisions(clients: map<uint8, TokenChain>, bridges: map<uint8, Address>, m: Message)
    : Outcome<Precisions>
    requires m.source in bridges && m.destination in bridges
  {
    if m.source !in clients then Panic
    else if clients[m.source].handlerOf(bridges[m.source], m.resourceId).None? then Error
    else if m.destination !in clients then Panic
    else
      var source := PrecisionOn(clients[m.source], bridges[m.source], m.resourceId);
      var destination := PrecisionOn(clients[m.destination], bridges[m.destination], m.resourceId);
      if source.Some? && destination.Some? then Ok(Precisions(source.value, destination.value)) else Error
  }

  /** What each processor does to a message: nothing and an error without precisions; otherwise the
      first item becomes the minimal bytes of the scaled amount, and between equal precisions the
      bytes stay exactly as they were. */
  function Adjusted(m: Message, p: Option<Precisions>): Outcome<Message> {
    if p.None? then Error
    else if m.payload == [] then Panic
    else if !m.payload[0].Data? then Error
    else if p.value.source == p.value.destination then Ok(m)
    else
      var scaled := Scale(ToNat(m.payload[0].bytes), p.value.source, p.value.destination);
      Ok(m.(payload := m.payload[0 := Data(FromNat(scaled))]))
  }

  /** The precisions found on chain, look-up by look-up; the native token has the address 0x00...01 and 18
      decimals. */
  lemma PrecisionOnExactly(chain: TokenChain, bridge: Address, r: ResourceID)
    ensures var p, handler := PrecisionOn(chain, bridge, r), chain.handlerOf(bridge, r);
            && (handler.None? ==> p.None?)
            && (handler.Some? ==>
                  var token := chain.tokenOf(handler.value, r);
                  && (token.None? ==> p.None?)
                  && (token.Some? ==>
                        p == if token.value == Zeros(19) + [1] then Some(18) else chain.decimalsOf(token.value)))
  {
  }

  /** The source's precision is that of the message's source, and so for the destination. */
  lemma OnChainExactly(clients: map<uint8, TokenChain>, bridges: map<uint8, Address>, m: Message, x: uint8, y: uint8)
    requires m.source in bridges && m.destination in bridges
    ensures var p := OnChainPrecisions(clients, bridges, m);
            && (p.Panic? <==> m.source !in clients
                              || (clients[m.source].handlerOf(bridges[m.source], m.resourceId).Some?
                                  && m.destination !in clients))
            && (p == Ok(Precisions(x, y)) <==>
                  && m.source in clients && m.destination in clients
                  && PrecisionOn(clients[m.source], bridges[m.source], m.resourceId) == Some(x)
                  && PrecisionOn(clients[m.destination], bridges[m.destination], m.resourceId) == Some(y))
  {
  }

  /** What adjusting from precision x to precision y does: an empty payload panics, an amount that is not
      a byte slice is an error, and both change nothing. Otherwise the amount, and nothing but the amount,
      becomes the scaled one, in minimal bytes unless the precisions are equal. */
  ghost predicate Rescales(before: Message, x: uint8, y: uint8, r: Outcome<()>, after: Message) {
    && (r.Panic? <==> before.payload == [])
    && (r.Error? <==> before.payload != [] && !before.payload[0].Data?)
    && (!r.Ok? ==> after == before)
    && (r.Ok? ==>
          && after.(payload := before.payload) == before
          && |after.payload| == |before.payload| && after.payload[1..] == before.payload[1..]
          && after.payload[0].Data?
          && var amount := Scale(ToNat(before.payload[0].bytes), x, y);
          && ToNat(after.payload[0].bytes) == amount
          && (x == y ==> after == before)
          && (x != y ==> after.payload[0].bytes == FromNat(amount)))
  }

  /** Adjusting is just that. */
  lemma AdjustedRescales(m: Message, x: uint8, y: uint8, r: Outcome<()>, after: Message)
    requires var a := Adjusted(m, Some(Precisions(x, y)));
             && (r.Ok? <==> a.Ok?) && (r.Panic? <==> a.Panic?)
             && after == if a.Ok? then a.value else m
    ensures Rescales(m, x, y, r, after)
  {
    if r.Ok? {
      ScaleKeeps(ToNat(m.payload[0].bytes), x, y);
      ToNatFromNat(Scale(ToNat(m.payload[0].bytes), x, y));
    }
  }

  /** A `*message.Message`: the processors write through it. */
  class MessagePointer {
    var message: Message

    constructor (m: Message)
      ensures message == m
    {
      message := m;
    }
  }

  /** The part all three processors share: read the amount, rescale it, write it back. */
  method AdjustAmount(m: MessagePointer, source: uint8, destination: uint8) returns (r: Outcome<()>)
    modifies m
    ensures var a := Adjusted(old(m.message), Some(Precisions(source, destination)));
            && (r.Ok? <==> a.Ok?) && (r.Panic? <==> a.Panic?)
            && m.message == if a.Ok? then a.value else old(m.message)
    ensures Rescales(old(m.message), source, destination, r, m.message)
    ensures r.Ok? && destination == source + 1 ==>
              ToNat(m.message.payload[0].bytes) == 10 * ToNat(old(m.message).payload[0].bytes)
    ensures r.Ok? && source == destination + 1 ==>
              ToNat(m.message.payload[0].bytes) == ToNat(old(m.message).payload[0].bytes) / 10
  {
    ghost var before := m.message;
    if |m.message.payload| == 0 {
      return Panic;
    }
    if !m.message.payload[0].Data? {
      return Error;
    }
    if source != destination {
      var roundedAmount := RoundedAmount(ToNat(m.message.payload[0].bytes), source, destination);
      m.message := m.message.(payload := m.message.payload[0 := Data(FromNat(roundedAmount))]);
    }
    r := Ok(());
    AdjustedRescales(before, source, destination, r, m.message);
    if source < 255 && destination == source + 1 {
      OneDigit(ToNat(before.payload[0].bytes), source);
    } else if destination < 255 && source == destination + 1 {
      OneDigit(ToNat(before.payload[0].bytes), destination);
    }
  }

  /** Divides or multiplies by the power of ten between two different precisions. */
  method RoundedAmount(amount: nat, source: uint8, destination: uint8) returns (rounded: int)
    requires source != destination
    ensures rounded == Scale(amount, source, destination)
  {
    if source > destination {
      var diff := source - destination;
      rounded := amount / Pow10(diff);
    } else {
      var diff := destination - source;
      rounded := amount * Pow10(diff);
    }
  }

  method AdjustDecimalsForERC20Amount(args: seq<Arg>, m: MessagePointer) returns (r: Outcome<()>)
    modifies m
    ensures var a := Adjusted(old(m.message), DomainPrecisions(args, old(m.message)));
            && (r.Ok? <==> a.Ok?) && (r.Panic? <==> a.Panic?)
            && m.message == if a.Ok? then a.value else old(m.message)
    ensures var before := old(m.message);
            if |args| > 0 && args[0].DomainDecimals?
               && before.source in args[0].byDomain && before.destination in args[0].byDomain
            then Rescales(before, args[0].byDomain[before.source], args[0].byDomain[before.destination], r, m.message)
            else r.Error? && m.message == before
  {
    if |args| == 0 {
      return Error;
    }
    if !args[0].DomainDecimals? {
      return Error;
    }
    var decimals := args[0].byDomain;
    if m.message.source !in decimals {
      return Error;
    }
    if m.message.destination !in decimals {
      return Error;
    }
    r := AdjustAmount(m, decimals[m.message.source], decimals[m.message.destination]);
  }

  method AdjustDecimalsForIndividualERC20Amount(args: seq<Arg>, m: MessagePointer) returns (r: Outcome<()>)
    modifies m
    ensures var a := Adjusted(old(m.message), TokenPrecisions(args, old(m.message)));
            && (r.Ok? <==> a.Ok?) && (r.Panic? <==> a.Panic?)
            && m.message == if a.Ok? then a.value else old(m.message)
    ensures var before := old(m.message);
            if |args| > 0 && args[0].TokenDecimals?
               && before.source in args[0].byToken && before.resourceId in args[0].byToken[before.source]
               && before.destination in args[0].byToken && before.resourceId in args[0].byToken[before.destination]
            then Rescales(before, args[0].byToken[before.source][before.resourceId],
                          args[0].byToken[before.destination][before.resourceId], r, m.message)
            else r.Error? && m.message == before
  {
    if |args| == 0 {
      return Error;
    }
    if !args[0].TokenDecimals? {
      return Error;
    }
    var decimals := args[0].byToken;
    if m.message.source !in decimals {
      return Error;
    }
    var sourceDecimals := decimals[m.message.source];
    if m.message.resourceId !in sourceDecimals {
      return Error;
    }
    if m.message.destination !in decimals {
      return Error;
    }
    var destinationDecimals := decimals[m.message.destination];
    if m.message.resourceId !in destinationDecimals {
      return Error;
    }
    r := AdjustAmount(m, sourceDecimals[m.message.resourceId], destinationDecimals[m.message.resourceId]);
  }

  /** `GetHandlerAddressForResourceID` through a client that may be missing. */
  method AskHandler(clients: map<uint8, TokenChain>, domain: uint8, bridge: Address, r: ResourceID)
    returns (a: Outcome<Address>)
    ensures a.Panic? <==> domain !in clients
    ensures domain in clients ==>
              a == var h := clients[domain].handlerOf(bridge, r); if h.Some? then Ok(h.value) else Error
  {
    if domain !in clients {
      return Panic;
    }
    var h := clients[domain].handlerOf(bridge, r);
    a := if h.Some? then Ok(h.value) else Error;
  }

  /** `GetDecimals`: the native token is not asked. */
  method AskDecimals(chain: TokenChain, token: Address) returns (d: Option<uint8>)
    ensures token == NATIVE_TOKEN ==> d == Some(NATIVE_DECIMALS)
    ensures token != NATIVE_TOKEN ==> d == chain.decimalsOf(token)
  {
    if token == NATIVE_TOKEN {
      return Some(NATIVE_DECIMALS);
    }
    d := chain.decimalsOf(token);
  }

  /** The six look-ups, in the order in which source and destination take turns. */
  method FindPrecisions(clients: map<uint8, TokenChain>, bridges: map<uint8, Address>, m: Message)
    returns (p: Outcome<Precisions>)
    requires m.source in bridges && m.destination in bridges
    ensures p == OnChainPrecisions(clients, bridges, m)
  {
    var sourceHandler := AskHandler(clients, m.source, bridges[m.source], m.resourceId);
    if !sourceHandler.Ok? {
      return if sourceHandler.Panic? then Panic else Error;
    }
    var destHandler := AskHandler(clients, m.destination, bridges[m.destination], m.resourceId);
    if !destHandler.Ok? {
      return if destHandler.Panic? then Panic else Error;
    }
    var sourceToken := clients[m.source].tokenOf(sourceHandler.value, m.resourceId);
    if sourceToken.None? {
      return Error;
    }
    var destToken := clients[m.destination].tokenOf(destHandler.value, m.resourceId);
    if destToken.None? {
      return Error;
    }
    var sourceDecimal := AskDecimals(clients[m.source], sourceToken.value);
    if sourceDecimal.None? {
      return Error;
    }
    var destDecimal := AskDecimals(clients[m.destination], destToken.value);
    if destDecimal.None? {
      return Error;
    }
    p := Ok(Precisions(sourceDecimal.value, destDecimal.value));
  }

  /** Only fungible transfers are touched. The arguments are checked first, then both bridge
      configurations are dereferenced, then the chains are asked. */
  method AdjustDecimalsForERC20AmountAuto(args: seq<Arg>, m: MessagePointer) returns (r: Outcome<()>)
    modifies m
    ensures !old(m.message.kind).FungibleTransfer? ==> r.Ok? && m.message == old(m.message)
    ensures old(m.message.kind).FungibleTransfer? ==>
              if |args| != 3 || !args[0].Clients? || !args[1].Transactors? || !args[2].EvmConfigs? then
                r.Error? && m.message == old(m.message)
              else if !({old(m.message.source), old(m.message.destination)} <= args[2].bridges.Keys) then
                r.Panic? && m.message == old(m.message)
              else
                var p := OnChainPrecisions(args[0].byChain, args[2].bridges, old(m.message));
                && (p.Ok? ==> Rescales(old(m.message), p.value.source, p.value.destination, r, m.message))
                && (!p.Ok? ==> (r.Error? <==> p.Error?) && (r.Panic? <==> p.Panic?) && m.message == old(m.message))
  {
    if m.message.kind != FungibleTransfer {
      return Ok(());
    }
    if |args| != 3 {
      return Error;
    }
    if !args[0].Clients? {
      return Error;
    }
    if !args[1].Transactors? {
      return Error;
    }
    if !args[2].EvmConfigs? {
      return Error;
    }
    if m.message.source !in args[2].bridges || m.message.destination !in args[2].bridges {
      return Panic;
    }
    var p := FindPrecisions(args[0].byChain, args[2].bridges, m.message);
    if !p.Ok? {
      return if p.Panic? then Panic else Error;
    }
    r := AdjustAmount(m, p.value.source, p.value.destination);
  }
}

/** The parsers that turn a deposit's calldata into a message. */
module EventHandlers {
  import opened Bytes
  import opened Messages

  function NewMessage(d: Deposit, payload: seq<Item>, kind: TransferType): Message {
    Message(d.txHash, d.block, d.source, d.destination, d.nonce, d.resourceId, payload, kind)
  }

  /** The length word of the calldata is not read: the recipient is everything behind it. */
  function Erc20EventHandler(d: Deposit): Outcome<Message> {
    var calldata := d.calldata.data;
    if |calldata| < 84 then Error
    else
      var amount := if |d.handlerResponse| == 32 then d.handlerResponse else calldata[..32];
      Ok(NewMessage(d, [Data(amount), Data(calldata[64..])], FungibleTransfer))
  }

  /** The length word of the calldata is not read here either. */
  function GenericEventHandler(d: Deposit): Outcome<Message> {
    var calldata := d.calldata.data;
    if |calldata| < 32 then Error
    else Ok(NewMessage(d, [Data(calldata[32..])], GenericTransfer))
  }

  /** Both declared lengths are narrowed to int64 and used as slice bounds; sums wrap as int64. */
  function Erc721EventHandler(d: Deposit): Outcome<Message> {
    var calldata := d.calldata;
    if |calldata.data| < 64 then Error
    else
      var tokenId := calldata.data[..32];
      var recipientEnd := Int64(64 + Int64(ToNat(calldata.data[32..64])));
      match Reslice(calldata, 64, recipientEnd)
      case Error => Error
      case Panic => Panic
      case Ok(recipient) =>
        var metadataStart := Int64(recipientEnd + 32);
        match Reslice(calldata, recipientEnd, metadataStart)
        case Error => Error
        case Panic => Panic
        case Ok(lengthWord) =>
          var metadataLength := ToNat(lengthWord);
          if metadataLength == 0 then
            Ok(NewMessage(d, [Data(tokenId), Data(recipient), Data([])], NonFungibleTransfer))
          else
            match Reslice(calldata, metadataStart, Int64(metadataStart + Int64(metadataLength)))
            case Error => Error
            case Panic => Panic
            case Ok(metadata) =>
              Ok(NewMessage(d, [Data(tokenId), Data(recipient), Data(metadata)], NonFungibleTransfer))
  }

  /** The layout an ERC721 calldata claims for itself: r bytes of recipient, m bytes of metadata. */
  ghost predicate Declares(calldata: Buffer, r: nat, m: nat) {
    && |calldata.data| >= 64
    && ToNat(calldata.data[32..64]) == r
    && 96 + r <= |calldata.Memory()|
    && ToNat(calldata.Memory()[64 + r..96 + r]) == m
  }

  /** When the parser of ERC721 calldata succeeds, and with what, for lengths that are not truncated. */
  lemma Erc721Parsed(d: Deposit, r: nat, m: nat)
    requires Declares(d.calldata, r, m) && m < TWO_63
    ensures Erc721EventHandler(d).Ok? <==> 96 + r + m <= |d.calldata.Memory()|
    ensures Erc721EventHandler(d).Ok? ==>
              var memory := d.calldata.Memory();
              Erc721EventHandler(d).value == NewMessage(d,
                [Data(memory[..32]), Data(memory[64..64 + r]), Data(memory[96 + r..96 + r + m])],
                NonFungibleTransfer)
  {
    var memory := d.calldata.Memory();
    assert memory[..32] == d.calldata.data[..32];
    assert Reslice(d.calldata, 64, 64 + r) == Ok(memory[64..64 + r]);
    assert Reslice(d.calldata, 64 + r, 96 + r) == Ok(memory[64 + r..96 + r]);
    if m == 0 {
      assert memory[96 + r..96 + r + m] == [];
    }
  }

  /** The declared lengths, truncated to int64, lie inside the memory. */
  ghost predicate Fits(calldata: Buffer) {
    && |calldata.data| >= 64
    && var l := Int64(ToNat(calldata.data[32..64]));
    && 0 <= l && 96 + l <= |calldata.Memory()|
    && var m := Int64(ToNat(calldata.Memory()[64 + l..96 + l]));
    && 0 <= m && 96 + l + m <= |calldata.Memory()|
  }

  /** Reslicing by a truncated length succeeds exactly when it stays inside the memory; a sum that
      wraps never does. */
  lemma ResliceBy(c: Slice, low: int, n: int)
    requires 0 <= low <= |c.Memory()| && -TWO_63 <= n < TWO_63
    ensures Reslice(c, low, Int64(low + n))
            == if 0 <= n && low + n <= |c.Memory()| then Ok(c.Memory()[low..low + n]) else Panic
    ensures 0 <= n && low + n <= |c.Memory()| ==> Int64(low + n) == low + n
  {
  }

  /** The ways to parse an ERC721 calldata, up to the metadata's length. */
  lemma Erc721Recipient(d: Deposit, l: int)
    requires |d.calldata.data| >= 64 && l == Int64(ToNat(d.calldata.data[32..64]))
    ensures !(0 <= l && 96 + l <= |d.calldata.Memory()|) ==> Erc721EventHandler(d).Panic?
    ensures 0 <= l && 96 + l <= |d.calldata.Memory()| ==>
              && Int64(64 + l) == 64 + l && Int64(64 + l + 32) == 96 + l
              && Reslice(d.calldata, 64, 64 + l) == Ok(d.calldata.Memory()[64..64 + l])
              && Reslice(d.calldata, 64 + l, 96 + l) == Ok(d.calldata.Memory()[64 + l..96 + l])
  {
    ResliceBy(d.calldata, 64, l);
    if 0 <= l && 64 + l <= |d.calldata.Memory()| {
      ResliceBy(d.calldata, 64 + l, 32);
    }
  }

  lemma Erc721Metadata(d: Deposit, l: int, m: nat)
    requires |d.calldata.data| >= 64 && l == Int64(ToNat(d.calldata.data[32..64]))
    requires 0 <= l && 96 + l <= |d.calldata.Memory()| && m == ToNat(d.calldata.Memory()[64 + l..96 + l])
    ensures var memory, r := d.calldata.Memory(), Erc721EventHandler(d);
            r == if 0 <= Int64(m) && 96 + l + Int64(m) <= |memory| then
                   Ok(NewMessage(d, [Data(memory[..32]), Data(memory[64..64 + l]),
                                     Data(memory[96 + l..96 + l + Int64(m)])], NonFungibleTransfer))
                 else Panic
  {
    var memory := d.calldata.Memory();
    assert memory[..32] == d.calldata.data[..32];
    Erc721Recipient(d, l);
    ResliceBy(d.calldata, 96 + l, Int64(m));
    assert m == 0 ==> memory[96 + l..96 + l + Int64(m)] == [];
  }

  /** Too short a calldata is an error, lengths that do not fit are a panic, and everything else parses. */
  lemma Erc721Outcome(d: Deposit)
    ensures Erc721EventHandler(d).Error? <==> |d.calldata.data| < 64
    ensures Erc721EventHandler(d).Panic? <==> |d.calldata.data| >= 64 && !Fits(d.calldata)
  {
    if |d.calldata.data| >= 64 {
      var l := Int64(ToNat(d.calldata.data[32..64]));
      Erc721Recipient(d, l);
      if 0 <= l && 96 + l <= |d.calldata.Memory()| {
        Erc721Metadata(d, l, ToNat(d.calldata.Memory()[64 + l..96 + l]));
      }
    }
  }

  /** A successful parse only ever accepts lengths whose truncation lies inside the memory. */
  lemma Erc721ParsedLengths(d: Deposit)
    requires Erc721EventHandler(d).Ok?
    ensures Fits(d.calldata)
    ensures var memory, l := d.calldata.Memory(), Int64(ToNat(d.calldata.data[32..64]));
            var m := Int64(ToNat(memory[64 + l..96 + l]));
            Erc721EventHandler(d).value == NewMessage(d,
              [Data(memory[..32]), Data(memory[64..64 + l]), Data(memory[96 + l..96 + l + m])],
              NonFungibleTransfer)
  {
    Erc721Outcome(d);
    var l := Int64(ToNat(d.calldata.data[32..64]));
    Erc721Metadata(d, l, ToNat(d.calldata.Memory()[64 + l..96 + l]));
  }

  /** `HandleEvent`: the parser registered for the handler contract of the deposit's resource. `found`
      is that parser's kind, or none when asking the bridge fails or nothing is registered. */
  function HandleEvent(found: Option<TransferType>, d: Deposit): Outcome<Message> {
    if found.None? then Error
    else
      match found.value
      case FungibleTransfer => Erc20EventHandler(d)
      case NonFungibleTransfer => Erc721EventHandler(d)
      case GenericTransfer => GenericEventHandler(d)
  }

  /** The message of an ERC20 deposit, field by field. */
  lemma Erc20Message(d: Deposit)
    ensures var r, calldata := Erc20EventHandler(d), d.calldata.data;
            && !r.Panic? && (r.Ok? <==> |calldata| >= 84)
            && (r.Ok? ==>
                  && r.value.source == d.source && r.value.destination == d.destination
                  && r.value.depositNonce == d.nonce && r.value.resourceId == d.resourceId
                  && r.value.depositTxHash == d.txHash && r.value.depositBlock == d.block
                  && r.value.kind == FungibleTransfer
                  && r.value.payload == [Data(if |d.handlerResponse| == 32 then d.handlerResponse else calldata[..32]),
                                         Data(calldata[64..])])
  {
  }

  lemma GenericMessage(d: Deposit)
    ensures var r, calldata := GenericEventHandler(d), d.calldata.data;
            && !r.Panic? && (r.Ok? <==> |calldata| >= 32)
            && (r.Ok? ==>
                  && r.value.source == d.source && r.value.destination == d.destination
                  && r.value.depositNonce == d.nonce && r.value.resourceId == d.resourceId
                  && r.value.depositTxHash == d.txHash && r.value.depositBlock == d.block
                  && r.value.kind == GenericTransfer && r.value.payload == [Data(calldata[32..])])
  {
  }

  lemma Erc721Message(d: Deposit)
    ensures var r, memory := Erc721EventHandler(d), d.calldata.Memory();
            && (r.Ok? <==> Fits(d.calldata)) && (r.Error? <==> |d.calldata.data| < 64)
            && (r.Ok? ==>
                  && r.value.source == d.source && r.value.destination == d.destination
                  && r.value.depositNonce == d.nonce && r.value.resourceId == d.resourceId
                  && r.value.depositTxHash == d.txHash && r.value.depositBlock == d.block
                  && r.value.kind == NonFungibleTransfer
                  && var l := Int64(ToNat(d.calldata.data[32..64]));
                  && var m := Int64(ToNat(memory[64 + l..96 + l]));
                  && r.value.payload == [Data(memory[..32]), Data(memory[64..64 + l]),
                                         Data(memory[96 + l..96 + l + m])])
  {
    Erc721Outcome(d);
    if Fits(d.calldata) {
      Erc721ParsedLengths(d);
    }
  }

  /** `HandleEvent` runs the parser of the kind found: its message carries the deposit's identity and is
      of that kind, and it exists exactly when the calldata suits that kind. */
  lemma HandleEventExactly(found: Option<TransferType>, d: Deposit)
    ensures var r := HandleEvent(found, d);
            && (found.None? ==> r.Error?)
            && (found == Some(FungibleTransfer) ==> (r.Ok? <==> |d.calldata.data| >= 84))
            && (found == Some(NonFungibleTransfer) ==> (r.Ok? <==> Fits(d.calldata)))
            && (found == Some(GenericTransfer) ==> (r.Ok? <==> |d.calldata.data| >= 32))
            && (r.Ok? ==>
                  && found == Some(r.value.kind)
                  && r.value.source == d.source && r.value.destination == d.destination
                  && r.value.depositNonce == d.nonce && r.value.resourceId == d.resourceId
                  && r.value.depositTxHash == d.txHash && r.value.depositBlock == d.block)
  {
    Erc20Message(d);
    Erc721Message(d);
    GenericMessage(d);
  }

  /** Handling an event panics for ERC721 deposits only, and for those exactly when their lengths do not fit. */
  lemma HandleEventPanics(found: Option<TransferType>, d: Deposit)
    ensures HandleEvent(found, d).Panic?
            <==> found == Some(NonFungibleTransfer) && |d.calldata.data| >= 64 && !Fits(d.calldata)
  {
    Erc721Outcome(d);
  }
}

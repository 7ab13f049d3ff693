/** From calldata to proposal: what a deposit's data becomes after parsing, adjusting and re-encoding. */
module DepositPipeline {
  import opened Bytes
  import opened Decimals
  import opened DepositData
  import opened EventHandlers
  import opened MessageHandlers
  import opened MessageProcessors
  import opened Messages

  /** The proposal a deposit leads to when its data ends up as `data`. */
  function ProposalOf(d: Deposit, data: seq<byte>, handler: Address, bridge: Address): Proposal {
    Proposal(d.source, d.nonce, d.resourceId, data, handler, bridge, d.txHash, d.block)
  }

  /** A word is recovered from any 32 bytes it was read from. */
  lemma WordOfSlice(s: seq<byte>, n: nat)
    requires |s| == 32
    ensures s == Word(n) <==> ToNat(s) == n
  {
    LeftPadFromToNat(s);
    WordLength(n);
  }

  // ---------- ERC20 ----------

  /** The amount a deposit transfers: the handler's response when it has one, else what was deposited. */
  function EffectiveAmount(d: Deposit, amount: nat): nat {
    if |d.handlerResponse| == 32 then ToNat(d.handlerResponse) else amount
  }

  /** Without an adjustment the proposal repeats the calldata, except that the length word is recomputed. */
  lemma Erc20Reencoded(d: Deposit, handler: Address, bridge: Address)
    ensures Erc20EventHandler(d).Ok? <==> |d.calldata.data| >= 84
    ensures Erc20EventHandler(d).Ok? && |d.handlerResponse| != 32 ==>
              var p := Erc20Proposal(Erc20EventHandler(d).value, handler, bridge);
              && p.Ok? && |p.value.data| == |d.calldata.data|
              && (p.value.data == d.calldata.data
                  <==> ToNat(d.calldata.data[32..64]) == |d.calldata.data| - 64)
  {
    var c := d.calldata.data;
    if |c| >= 84 && |d.handlerResponse| != 32 {
      var data := Erc20Proposal(Erc20EventHandler(d).value, handler, bridge).value.data;
      WordFits(|c| - 64);
      assert data == c[..32] + Word(|c| - 64) + c[64..];
      assert c == c[..32] + c[32..64] + c[64..];
      WordOfSlice(c[32..64], |c| - 64);
      assert data[32..64] == Word(|c| - 64);
    }
  }

  /** What the parser reads from a constructed calldata. */
  lemma Erc20Parsed(d: Deposit, recipient: seq<byte>, amount: nat)
    requires d.calldata.data == Erc20Calldata(recipient, amount)
    requires amount < TWO_256 && |recipient| >= 20
    ensures var m := Erc20EventHandler(d);
            && m.Ok? && |m.value.payload| == 2
            && m.value.payload[0].Data? && m.value.payload[1] == Data(recipient)
            && |m.value.payload[0].bytes| == 32
            && ToNat(m.value.payload[0].bytes) == EffectiveAmount(d, amount)
  {
    WordFits(amount);
    WordFits(|recipient|);
    assert d.calldata.data[..32] == Word(amount) && d.calldata.data[64..] == recipient;
  }

  /** Padding the adjusted amount gives the word of the scaled amount. */
  lemma AdjustedWord(m: Message, p: Precisions)
    requires m.payload != [] && m.payload[0].Data? && |m.payload[0].bytes| == 32
    ensures var a := Adjusted(m, Some(p));
            && a.Ok? && a.value == m.(payload := m.payload[0 := a.value.payload[0]]) && a.value.payload[0].Data?
            && LeftPad(a.value.payload[0].bytes, 32)
               == Word(Scale(ToNat(m.payload[0].bytes), p.source, p.destination))
  {
    var amount := m.payload[0].bytes;
    if p.source == p.destination {
      LeftPadFromToNat(amount);
      assert Scale(ToNat(amount), p.source, p.destination) == ToNat(amount);
    }
  }

  /** Construct, parse, adjust, re-encode: the constructor's bytes for the scaled amount. */
  lemma Erc20EndToEnd(d: Deposit, recipient: seq<byte>, amount: nat, precisions: Precisions,
                      handler: Address, bridge: Address)
    requires d.calldata.data == Erc20Calldata(recipient, amount)
    requires amount < TWO_256 && |recipient| >= 20
    ensures var scaled := Scale(EffectiveAmount(d, amount), precisions.source, precisions.destination);
            var m := Erc20EventHandler(d);
            && m.Ok?
            && var a := Adjusted(m.value, Some(precisions));
            && a.Ok?
            && Erc20Proposal(a.value, handler, bridge)
               == Ok(ProposalOf(d, Erc20Calldata(recipient, scaled), handler, bridge))
            && (|Erc20Calldata(recipient, scaled)| == 64 + |recipient| <==> scaled < TWO_256)
  {
    Erc20Parsed(d, recipient, amount);
    var m := Erc20EventHandler(d).value;
    AdjustedWord(m, precisions);
    WordFits(|recipient|);
    WordLength(Scale(EffectiveAmount(d, amount), precisions.source, precisions.destination));
  }

  /** It happens: an amount that fits a word on the source can be longer than one at the next precision,
      and then so is the proposal. */
  lemma Erc20AmountOutgrowsWord(d: Deposit, recipient: seq<byte>, amount: nat, precisions: Precisions,
                                handler: Address, bridge: Address)
    requires d.calldata.data == Erc20Calldata(recipient, amount) && |d.handlerResponse| != 32
    requires amount < TWO_256 <= 10 * amount && |recipient| >= 20
    requires precisions.source < precisions.destination
    ensures var m := Erc20EventHandler(d);
            && m.Ok?
            && var a := Adjusted(m.value, Some(precisions));
            && a.Ok?
            && var p := Erc20Proposal(a.value, handler, bridge);
            && p.Ok? && |p.value.data| > |d.calldata.data|
  {
    Erc20EndToEnd(d, recipient, amount, precisions, handler, bridge);
    ScaleUpAtLeast(amount, precisions.source, precisions.destination);
    LongerCalldata(recipient, amount, Scale(amount, precisions.source, precisions.destination));
  }

  lemma LongerCalldata(recipient: seq<byte>, amount: nat, scaled: nat)
    requires amount < TWO_256 <= scaled
    ensures |Erc20Calldata(recipient, scaled)| > |Erc20Calldata(recipient, amount)|
  {
    WordLength(scaled);
    WordLength(amount);
  }

  /** A recipient shorter than an address is rejected, whatever the amount. */
  lemma Erc20ShortRecipient(d: Deposit, recipient: seq<byte>, amount: nat)
    requires d.calldata.data == Erc20Calldata(recipient, amount) && amount < TWO_256
    ensures Erc20EventHandler(d).Error? <==> |recipient| < 20
  {
    WordFits(amount);
    WordLength(|recipient|);
    if |recipient| < 20 {
      WordFits(|recipient|);
    }
  }

  // ---------- ERC721 ----------

  /** What the ERC721 encoder writes for l bytes of recipient and m bytes of metadata out of `memory`. */
  function Rewritten(memory: seq<byte>, l: nat, m: nat): seq<byte>
    requires 96 + l + m <= |memory|
  {
    memory[..32] + Word(l) + memory[64..64 + l] + Word(m) + memory[96 + l..96 + l + m]
  }

  lemma RewrittenPrefix(memory: seq<byte>, l: nat, m: nat)
    requires 96 + l + m <= |memory| < TWO_63
    ensures Rewritten(memory, l, m) <= memory
            <==> ToNat(memory[32..64]) == l && ToNat(memory[64 + l..96 + l]) == m
    ensures |Rewritten(memory, l, m)| == 96 + l + m
  {
    WordFits(l);
    WordFits(m);
    WordOfSlice(memory[32..64], l);
    WordOfSlice(memory[64 + l..96 + l], m);
    var data := Rewritten(memory, l, m);
    assert data[32..64] == Word(l);
    assert data[64 + l..96 + l] == Word(m);
    if data <= memory {
      assert data == memory[..96 + l + m];
      assert memory[32..64] == data[32..64];
      assert memory[64 + l..96 + l] == data[64 + l..96 + l];
    } else if memory[32..64] == Word(l) && memory[64 + l..96 + l] == Word(m) {
      SplitAt(memory, l, m);
      assert false;
    }
  }

  lemma SplitAt(memory: seq<byte>, l: nat, m: nat)
    requires 96 + l + m <= |memory|
    ensures memory[..96 + l + m]
      == memory[..32] + memory[32..64] + memory[64..64 + l] + memory[64 + l..96 + l] + memory[96 + l..96 + l + m]
  {
  }

  /** The proposal repeats the memory up to the declared end; that is a piece of the calldata, and
      independent of the bytes behind it, exactly when the declared lengths fit in the calldata. */
  lemma Erc721Prefix(d: Deposit, r: nat, m: nat, handler: Address, bridge: Address)
    requires Declares(d.calldata, r, m)
    requires 96 + r + m <= |d.calldata.Memory()|
    ensures Erc721EventHandler(d).Ok?
    ensures Erc721Proposal(Erc721EventHandler(d).value, handler, bridge)
            == Ok(ProposalOf(d, d.calldata.Memory()[..96 + r + m], handler, bridge))
    ensures d.calldata.Memory()[..96 + r + m] <= d.calldata.data <==> 96 + r + m <= |d.calldata.data|
  {
    var memory := d.calldata.Memory();
    Erc721Parsed(d, r, m);
    assert memory[32..64] == d.calldata.data[32..64];
    RewrittenPrefix(memory, r, m);
    RewrittenByEncoder(Erc721EventHandler(d).value, memory, r, m, handler, bridge);
    assert Rewritten(memory, r, m) == memory[..96 + r + m];
  }

  /** Whenever parsing succeeds, the proposal repeats the memory it was parsed from exactly when
      neither declared length is 2^63 or more: such a length is truncated, and written back truncated. */
  lemma Erc721Truncation(d: Deposit, handler: Address, bridge: Address)
    requires Erc721EventHandler(d).Ok?
    ensures var l := Int64(ToNat(d.calldata.data[32..64]));
            && 0 <= l && 96 + l <= |d.calldata.Memory()|
            && var p := Erc721Proposal(Erc721EventHandler(d).value, handler, bridge);
            && p.Ok?
            && (p.value.data <= d.calldata.Memory()
                <==> ToNat(d.calldata.data[32..64]) < TWO_63
                     && ToNat(d.calldata.Memory()[64 + l..96 + l]) < TWO_63)
  {
    Erc721ParsedLengths(d);
    TruncationOf(d, Erc721EventHandler(d).value, handler, bridge);
  }

  lemma TruncationOf(d: Deposit, message: Message, handler: Address, bridge: Address)
    requires Fits(d.calldata)
    requires var memory, l := d.calldata.Memory(), Int64(ToNat(d.calldata.data[32..64]));
             var m := Int64(ToNat(memory[64 + l..96 + l]));
             message.payload == [Data(memory[..32]), Data(memory[64..64 + l]), Data(memory[96 + l..96 + l + m])]
    ensures var l, p := Int64(ToNat(d.calldata.data[32..64])), Erc721Proposal(message, handler, bridge);
            && p.Ok?
            && (p.value.data <= d.calldata.Memory()
                <==> ToNat(d.calldata.data[32..64]) < TWO_63
                     && ToNat(d.calldata.Memory()[64 + l..96 + l]) < TWO_63)
  {
    var memory := d.calldata.Memory();
    assert memory[32..64] == d.calldata.data[32..64];
    var r := ToNat(memory[32..64]);
    EncodedTruncated(message, memory, r, ToNat(memory[64 + Int64(r)..96 + Int64(r)]), handler, bridge);
  }

  lemma EncodedTruncated(message: Message, memory: seq<byte>, r: nat, m: nat, handler: Address, bridge: Address)
    requires 0 <= Int64(r) && 0 <= Int64(m) && 96 + Int64(r) + Int64(m) <= |memory| < TWO_63
    requires ToNat(memory[32..64]) == r && ToNat(memory[64 + Int64(r)..96 + Int64(r)]) == m
    requires message.payload == [Data(memory[..32]), Data(memory[64..64 + Int64(r)]),
                                 Data(memory[96 + Int64(r)..96 + Int64(r) + Int64(m)])]
    ensures var p := Erc721Proposal(message, handler, bridge);
            p.Ok? && (p.value.data <= memory <==> r < TWO_63 && m < TWO_63)
  {
    RewrittenByEncoder(message, memory, Int64(r), Int64(m), handler, bridge);
    RewrittenTruncated(memory, r, m);
  }

  lemma RewrittenTruncated(memory: seq<byte>, r: nat, m: nat)
    requires 0 <= Int64(r) && 0 <= Int64(m) && 96 + Int64(r) + Int64(m) <= |memory| < TWO_63
    requires ToNat(memory[32..64]) == r && ToNat(memory[64 + Int64(r)..96 + Int64(r)]) == m
    ensures Rewritten(memory, Int64(r), Int64(m)) <= memory <==> r < TWO_63 && m < TWO_63
  {
    RewrittenPrefix(memory, Int64(r), Int64(m));
  }

  /** It happens: a declared length of 2^64 more than the recipient has parses like the right one, and
      the proposal holds the right one. */
  lemma Erc721LengthTruncated(d: Deposit, recipient: seq<byte>, tokenId: nat, metadata: seq<byte>,
                              handler: Address, bridge: Address)
    requires d.calldata.data == Word(tokenId) + Word(TWO_64 + |recipient|) + recipient + Word(|metadata|) + metadata
    requires tokenId < TWO_256
    ensures Erc721EventHandler(d).Ok?
    ensures Erc721Proposal(Erc721EventHandler(d).value, handler, bridge)
            == Ok(ProposalOf(d, Erc721Calldata(recipient, tokenId, metadata), handler, bridge))
    ensures Erc721Calldata(recipient, tokenId, metadata) != d.calldata.data
  {
    TruncatedParsed(d, recipient, tokenId, metadata);
    TruncatedEncoded(d, Erc721EventHandler(d).value, recipient, tokenId, metadata, handler, bridge);
    TruncatedDiffers(recipient, tokenId, metadata);
  }

  lemma TruncatedDiffers(recipient: seq<byte>, tokenId: nat, metadata: seq<byte>)
    requires tokenId < TWO_256 && |recipient| < TWO_63
    ensures Word(tokenId) + Word(TWO_64 + |recipient|) + recipient + Word(|metadata|) + metadata
            != Erc721Calldata(recipient, tokenId, metadata)
  {
    var c := Word(tokenId) + Word(TWO_64 + |recipient|) + recipient + Word(|metadata|) + metadata;
    WordFits(tokenId);
    WordFits(|recipient|);
    WordFits(TWO_64 + |recipient|);
    assert c[32..64] == Word(TWO_64 + |recipient|);
    assert Erc721Calldata(recipient, tokenId, metadata)[32..64] == Word(|recipient|);
  }

  lemma TruncatedEncoded(d: Deposit, message: Message, recipient: seq<byte>, tokenId: nat, metadata: seq<byte>,
                         handler: Address, bridge: Address)
    requires message == NewMessage(d, [Data(Word(tokenId)), Data(recipient), Data(metadata)], NonFungibleTransfer)
    requires tokenId < TWO_256
    ensures Erc721Proposal(message, handler, bridge)
            == Ok(ProposalOf(d, Erc721Calldata(recipient, tokenId, metadata), handler, bridge))
  {
    WordFits(tokenId);
  }

  lemma TruncatedParsed(d: Deposit, recipient: seq<byte>, tokenId: nat, metadata: seq<byte>)
    requires d.calldata.data == Word(tokenId) + Word(TWO_64 + |recipient|) + recipient + Word(|metadata|) + metadata
    requires tokenId < TWO_256
    ensures Erc721EventHandler(d)
            == Ok(NewMessage(d, [Data(Word(tokenId)), Data(recipient), Data(metadata)], NonFungibleTransfer))
  {
    var declared, r := TWO_64 + |recipient|, |recipient|;
    Layout(d.calldata, tokenId, declared, recipient, metadata);
    LayoutNumbers(d.calldata, declared, r, |metadata|);
    Erc721Metadata(d, r, |metadata|);
  }

  lemma LayoutNumbers(c: Buffer, declared: nat, r: nat, m: nat)
    requires 96 + r <= |c.data| && declared < TWO_256 && m < TWO_256
    requires c.data[32..64] == Word(declared) && c.Memory()[64 + r..96 + r] == Word(m)
    requires declared == TWO_64 + r && r < TWO_63
    ensures Int64(ToNat(c.data[32..64])) == r && ToNat(c.Memory()[64 + r..96 + r]) == m
  {
    WordFits(declared);
    WordFits(m);
    Int64OfWrap(r);
  }

  lemma Int64OfWrap(r: nat)
    requires r < TWO_63
    ensures Int64(TWO_64 + r) == r
  {
  }

  /** Where the pieces of a calldata lie that declares a recipient of `declared` bytes. */
  lemma Layout(c: Buffer, tokenId: nat, declared: nat, recipient: seq<byte>, metadata: seq<byte>)
    requires c.data == Word(tokenId) + Word(declared) + recipient + Word(|metadata|) + metadata
    requires tokenId < TWO_256 && declared < TWO_256 && |metadata| < TWO_256
    ensures var memory, r := c.Memory(), |recipient|;
            && 96 + r + |metadata| == |c.data| <= |memory|
            && c.data[32..64] == Word(declared) && memory[..32] == Word(tokenId)
            && memory[64..64 + r] == recipient && memory[64 + r..96 + r] == Word(|metadata|)
            && memory[96 + r..96 + r + |metadata|] == metadata
  {
    WordFits(tokenId);
    WordFits(declared);
    WordFits(|metadata|);
  }

  /** Zeros up to a whole word. */
  function Padding(n: nat): seq<byte> {
    Zeros((32 - n % 32) % 32)
  }

  /** A decoded log: calldata and handler response are slices of one buffer. Behind the calldata lie its
      padding, the response's length word, the response and its padding. */
  ghost predicate Decoded(d: Deposit) {
    var c, r := d.calldata, d.handlerResponse;
    c.spare == Padding(|c.data|) + Word(|r|) + r + Padding(|r|)
  }

  /** It happens: calldata that ends right behind its recipient, with no room for the metadata's length,
      and an empty response. The padding and the response's length word take the place of that length,
      and 65 bytes of calldata become 97 bytes of proposal. */
  lemma Erc721SpareBytes(d: Deposit, tokenId: nat, x: byte, handler: Address, bridge: Address)
    requires tokenId < TWO_256 && Decoded(d) && d.handlerResponse == []
    requires d.calldata.data == Word(tokenId) + Word(1) + [x]
    ensures Erc721EventHandler(d).Ok?
    ensures Erc721Proposal(Erc721EventHandler(d).value, handler, bridge)
            == Ok(ProposalOf(d, d.calldata.data + Zeros(32), handler, bridge))
  {
    var c, memory := d.calldata, d.calldata.Memory();
    WordFits(tokenId);
    WordFits(1);
    ZeroWord();
    assert c.data[32..64] == Word(1);
    assert memory == c.data + Zeros(31) + Zeros(32);
    assert memory[65..97] == Zeros(32) && memory[..97] == c.data + Zeros(32);
    NoMetadata(d, 1, handler, bridge);
  }

  /** A declared recipient that a zero word follows in memory. */
  lemma NoMetadata(d: Deposit, r: nat, handler: Address, bridge: Address)
    requires |d.calldata.data| >= 64 && 96 + r <= |d.calldata.Memory()|
    requires d.calldata.data[32..64] == Word(r) && d.calldata.Memory()[64 + r..96 + r] == Zeros(32)
    ensures Erc721EventHandler(d).Ok?
    ensures Erc721Proposal(Erc721EventHandler(d).value, handler, bridge)
            == Ok(ProposalOf(d, d.calldata.Memory()[..96 + r], handler, bridge))
  {
    WordFits(r);
    ZeroWord();
    WordFits(0);
    Erc721Prefix(d, r, 0, handler, bridge);
  }

  lemma ZeroWord()
    ensures Word(0) == Zeros(32)
  {
    assert FromNat(0) == [];
    assert Zeros(32) + [] == Zeros(32);
  }

  /** It happens: calldata without recipient that declares one reaching into the response. Whatever the
      response begins with becomes part of the recipient, when a zero word follows it there. */
  lemma Erc721TakesResponse(d: Deposit, tokenId: nat, x: seq<byte>, handler: Address, bridge: Address)
    requires tokenId < TWO_256 && Decoded(d) && |x| % 32 == 0 && d.handlerResponse == x + Zeros(32)
    requires d.calldata.data == Word(tokenId) + Word(32 + |x|)
    ensures Erc721EventHandler(d).Ok?
    ensures Erc721Proposal(Erc721EventHandler(d).value, handler, bridge)
            == Ok(ProposalOf(d, d.calldata.data + Word(32 + |x|) + x + Zeros(32), handler, bridge))
  {
    var r, memory := 32 + |x|, d.calldata.Memory();
    TakesResponseLayout(d.calldata, tokenId, x);
    assert memory[..96 + r] == memory;
    NoMetadata(d, r, handler, bridge);
  }

  lemma TakesResponseLayout(c: Slice, tokenId: nat, x: seq<byte>)
    requires tokenId < TWO_256 && |x| % 32 == 0
    requires c.data == Word(tokenId) + Word(32 + |x|)
    requires c.spare == Padding(|c.data|) + Word(32 + |x|) + (x + Zeros(32)) + Padding(|x + Zeros(32)|)
    ensures var r, memory := 32 + |x|, c.Memory();
            && |c.data| == 64 && memory == c.data + Word(r) + x + Zeros(32) && |memory| == 96 + r
            && c.data[32..64] == Word(r) && memory[64 + r..96 + r] == Zeros(32)
  {
    WordFits(tokenId);
    WordFits(32 + |x|);
    assert Padding(|c.data|) == [] by { assert |c.data| == 64; }
    assert Padding(|x + Zeros(32)|) == [] by { WholeWords(|x|); }
    SpliceLayout(Word(tokenId), Word(32 + |x|), x, Zeros(32), c.Memory());
  }

  lemma WholeWords(n: nat)
    requires n % 32 == 0
    ensures Padding(n + 32) == []
  {
  }

  lemma SpliceLayout(first: seq<byte>, length: seq<byte>, x: seq<byte>, zeros: seq<byte>, memory: seq<byte>)
    requires |first| == 32 && |length| == 32 && |zeros| == 32
    requires memory == first + length + ([] + length + (x + zeros) + [])
    ensures memory == first + length + length + x + zeros && |memory| == 128 + |x|
    ensures (first + length)[32..64] == length && memory[96 + |x|..128 + |x|] == zeros
  {
  }

  lemma RewrittenByEncoder(message: Message, memory: seq<byte>, l: nat, m: nat, handler: Address, bridge: Address)
    requires 96 + l + m <= |memory|
    requires message.payload == [Data(memory[..32]), Data(memory[64..64 + l]), Data(memory[96 + l..96 + l + m])]
    ensures Erc721Proposal(message, handler, bridge).Ok?
    ensures Erc721Proposal(message, handler, bridge).value
            == NewProposal(message, Rewritten(memory, l, m), handler, bridge)
  {
  }

  /** Parsing and re-encoding a constructed calldata is the identity. */
  lemma Erc721EndToEnd(d: Deposit, recipient: seq<byte>, tokenId: nat, metadata: seq<byte>,
                       handler: Address, bridge: Address)
    requires d.calldata.data == Erc721Calldata(recipient, tokenId, metadata)
    requires tokenId < TWO_256
    ensures Erc721EventHandler(d).Ok?
    ensures Erc721Proposal(Erc721EventHandler(d).value, handler, bridge)
            == Ok(ProposalOf(d, d.calldata.data, handler, bridge))
  {
    var c := d.calldata.data;
    var r, m := |recipient|, |metadata|;
    WordFits(tokenId);
    WordFits(r);
    WordFits(m);
    assert c[32..64] == Word(r) && d.calldata.Memory()[64 + r..96 + r] == Word(m);
    Erc721Prefix(d, r, m, handler, bridge);
    assert d.calldata.Memory()[..96 + r + m] == c;
  }

  /** The two processors configured with decimals do not look at the kind of a message: if both domains
      are configured, they rescale the token ID of an ERC721 deposit like an amount. The proposal
      repeats the calldata exactly between equal precisions, or for token ID zero. */
  lemma Erc721TokenIdRescaled(d: Deposit, recipient: seq<byte>, tokenId: nat, metadata: seq<byte>,
                              precisions: Precisions, handler: Address, bridge: Address)
    requires d.calldata.data == Erc721Calldata(recipient, tokenId, metadata)
    requires tokenId < TWO_256
    ensures var m := Erc721EventHandler(d);
            && m.Ok?
            && var a := Adjusted(m.value, Some(precisions));
            && a.Ok?
            && var scaled := Scale(tokenId, precisions.source, precisions.destination);
            && Erc721Proposal(a.value, handler, bridge)
               == Ok(ProposalOf(d, Erc721Calldata(recipient, scaled, metadata), handler, bridge))
            && (Erc721Calldata(recipient, scaled, metadata) == d.calldata.data
                <==> precisions.source == precisions.destination || tokenId == 0)
  {
    Erc721ConstructedParsed(d, recipient, tokenId, metadata);
    WordFits(tokenId);
    AdjustedWord(Erc721EventHandler(d).value, precisions);
    var scaled := Scale(tokenId, precisions.source, precisions.destination);
    CalldataTokenId(recipient, scaled, tokenId, metadata);
    ScaleKeeps(tokenId, precisions.source, precisions.destination);
  }

  /** The token ID can be read off a constructed calldata. */
  lemma CalldataTokenId(recipient: seq<byte>, s: nat, t: nat, metadata: seq<byte>)
    ensures Erc721Calldata(recipient, s, metadata) == Erc721Calldata(recipient, t, metadata) <==> s == t
  {
    var x, y := Erc721Calldata(recipient, s, metadata), Erc721Calldata(recipient, t, metadata);
    WordLength(s);
    WordLength(t);
    var rest := Word(|recipient|) + recipient + Word(|metadata|) + metadata;
    assert x == Word(s) + rest && y == Word(t) + rest;
    assert |x| == |y| ==> x[..|Word(s)|] == Word(s) && y[..|Word(s)|] == Word(t);
  }

  lemma Erc721ConstructedParsed(d: Deposit, recipient: seq<byte>, tokenId: nat, metadata: seq<byte>)
    requires d.calldata.data == Erc721Calldata(recipient, tokenId, metadata)
    requires tokenId < TWO_256
    ensures Erc721EventHandler(d)
            == Ok(NewMessage(d, [Data(Word(tokenId)), Data(recipient), Data(metadata)], NonFungibleTransfer))
  {
    WordFits(|recipient|);
    WordFits(|metadata|);
    Layout(d.calldata, tokenId, |recipient|, recipient, metadata);
    Erc721Parsed(d, |recipient|, |metadata|);
  }

  /** The declared lengths use up the calldata exactly. */
  ghost predicate Exact(c: Buffer) {
    exists r: nat, m: nat :: Declares(c, r, m) && 96 + r + m == |c.data|
  }

  /** Distinct well-formed deposits give distinct proposal data. */
  lemma Erc721Distinct(d: Deposit, e: Deposit, handler: Address, bridge: Address)
    requires Exact(d.calldata) && Exact(e.calldata)
    ensures var p, q := Erc721EventHandler(d), Erc721EventHandler(e);
            && p.Ok? && q.Ok?
            && var x, y := Erc721Proposal(p.value, handler, bridge), Erc721Proposal(q.value, handler, bridge);
            && x.Ok? && y.Ok?
            && (x.value.data == y.value.data <==> d.calldata.data == e.calldata.data)
  {
    var r: nat, m: nat :| Declares(d.calldata, r, m) && 96 + r + m == |d.calldata.data|;
    Erc721Prefix(d, r, m, handler, bridge);
    var s: nat, n: nat :| Declares(e.calldata, s, n) && 96 + s + n == |e.calldata.data|;
    Erc721Prefix(e, s, n, handler, bridge);
    assert d.calldata.Memory()[..96 + r + m] == d.calldata.data;
    assert e.calldata.Memory()[..96 + s + n] == e.calldata.data;
  }

  // ---------- generic ----------

  /** The proposal repeats the calldata except for a recomputed length word. */
  lemma GenericReencoded(d: Deposit, handler: Address, bridge: Address)
    ensures GenericEventHandler(d).Ok? <==> |d.calldata.data| >= 32
    ensures GenericEventHandler(d).Ok? ==>
              var c := d.calldata.data;
              var p := GenericProposal(GenericEventHandler(d).value, handler, bridge);
              && p == Ok(ProposalOf(d, Word(|c| - 32) + c[32..], handler, bridge))
              && (p.value.data == c <==> ToNat(c[..32]) == |c| - 32)
  {
    var c := d.calldata.data;
    if |c| >= 32 {
      WordFits(|c| - 32);
      WordOfSlice(c[..32], |c| - 32);
      assert c == c[..32] + c[32..];
      assert (Word(|c| - 32) + c[32..])[..32] == Word(|c| - 32);
    }
  }

  lemma GenericEndToEnd(d: Deposit, metadata: seq<byte>, handler: Address, bridge: Address)
    requires d.calldata.data == GenericCalldata(metadata)
    ensures GenericEventHandler(d).Ok?
    ensures GenericProposal(GenericEventHandler(d).value, handler, bridge)
            == Ok(ProposalOf(d, d.calldata.data, handler, bridge))
  {
    WordFits(|metadata|);
    assert d.calldata.data[..32] == Word(|metadata|);
    GenericReencoded(d, handler, bridge);
  }
}

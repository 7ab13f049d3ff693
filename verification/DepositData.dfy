/** The calldata constructors of a deposit. */
module DepositData {
  import opened Bytes
  import opened Messages

  function Erc20Calldata(recipient: seq<byte>, amount: nat): seq<byte> {
    Word(amount) + Word(|recipient|) + recipient
  }

  function Erc721Calldata(recipient: seq<byte>, tokenId: nat, metadata: seq<byte>): seq<byte> {
    Word(tokenId) + Word(|recipient|) + recipient + Word(|metadata|) + metadata
  }

  function GenericCalldata(metadata: seq<byte>): seq<byte> {
    Word(|metadata|) + metadata
  }

  method ConstructErc20DepositData(destRecipient: seq<byte>, amount: nat) returns (data: seq<byte>)
    ensures data == Erc20Calldata(destRecipient, amount)
  {
    PaddedIsLeftPad(amount, 32);
    PaddedIsLeftPad(|destRecipient|, 32);
    data := [];
    data := data + PaddedBigBytes(amount, 32);
    data := data + PaddedBigBytes(|destRecipient|, 32);
    data := data + destRecipient;
  }

  lemma EmptyFirst(s: seq<byte>)
    ensures [] + s == s
  {
  }

  method ConstructErc721DepositData(destRecipient: seq<byte>, tokenId: nat, metadata: seq<byte>)
    returns (data: seq<byte>)
    ensures data == Erc721Calldata(destRecipient, tokenId, metadata)
  {
    data := [];
    data := data + PaddedBigBytes(tokenId, 32);
    assert data == Word(tokenId) by {
      PaddedIsLeftPad(tokenId, 32);
      EmptyFirst(Word(tokenId));
    }
    data := data + PaddedBigBytes(|destRecipient|, 32);
    assert data == Word(tokenId) + Word(|destRecipient|) by { PaddedIsLeftPad(|destRecipient|, 32); }
    data := data + destRecipient;
    data := data + PaddedBigBytes(|metadata|, 32);
    PaddedIsLeftPad(|metadata|, 32);
    data := data + metadata;
  }

  method ConstructGenericDepositData(metadata: seq<byte>) returns (data: seq<byte>)
    ensures data == GenericCalldata(metadata)
  {
    PaddedIsLeftPad(|metadata|, 32);
    data := [];
    data := data + PaddedBigBytes(|metadata|, 32);
    data := data + metadata;
  }

  /** A number below 2^256, and so the length of anything, occupies exactly one word. */
  lemma WordFits(n: nat)
    requires n < TWO_256
    ensures |Word(n)| == 32 && ToNat(Word(n)) == n
  {
    WordLength(n);
  }
}

/** The values that travel from a deposit on one chain to a proposal on another. */
module Messages {
  import opened Bytes

  datatype Option<+T> = None | Some(value: T)

  /** Ways a Go call can end: a value, a returned error, or a run-time panic. */
  datatype Outcome<+T> = Ok(value: T) | Error | Panic

  type Hash = s: seq<byte> | |s| == 32 witness seq(32, _ => 0)
  type ResourceID = s: seq<byte> | |s| == 32 witness seq(32, _ => 0)
  type Address = s: seq<byte> | |s| == 20 witness seq(20, _ => 0)

  /** A Go byte slice with the bytes between its length and its capacity: reslicing may reach those. */
  datatype Buffer = Buffer(data: seq<byte>, spare: seq<byte>) {
    function Memory(): seq<byte> { data + spare }
  }
  type Slice = b: Buffer | |b.data| + |b.spare| < TWO_63 witness Buffer([], [])

  /** `b[low:high]`: the bound is the capacity, not the length. */
  function Reslice(b: Slice, low: int, high: int): (r: Outcome<seq<byte>>)
    ensures r.Ok? <==> 0 <= low <= high <= |b.Memory()|
    ensures r.Ok? ==> |r.value| == high - low
  {
    if 0 <= low <= high <= |b.Memory()| then Ok(b.Memory()[low..high]) else Panic
  }

  datatype TransferType = FungibleTransfer | NonFungibleTransfer | GenericTransfer

  /** An `interface{}` of a payload: the only dynamic type the handlers accept is a byte slice. */
  datatype Item = Data(bytes: seq<byte>) | Opaque

  /** A deposit log as the listener reads it. */
  datatype Deposit = Deposit(source: uint8, destination: uint8, nonce: uint64, resourceId: ResourceID,
                             calldata: Slice, handlerResponse: seq<byte>, txHash: Hash, block: uint64)

  datatype Message = Message(depositTxHash: Hash, depositBlock: uint64, source: uint8, destination: uint8,
                             depositNonce: uint64, resourceId: ResourceID, payload: seq<Item>, kind: TransferType)

  datatype Proposal = Proposal(source: uint8, depositNonce: uint64, resourceId: ResourceID, data: seq<byte>,
                               handlerAddress: Address, bridgeAddress: Address,
                               depositTxHash: Hash, depositBlock: uint64)
}

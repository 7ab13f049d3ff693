/** The block and nonce stores, both on one key-value store. */
module Stores {
  import opened BigInts
  import opened Bytes
  import opened Messages

  // ---------- keys ----------

  const DIGITS: string := "0123456789"

  function Decimal(n: nat): string {
    if n < 10 then [DIGITS[n]] else Decimal(n / 10) + [DIGITS[n % 10]]
  }

  /** `%d`. */
  function Print(n: int): string {
    if n < 0 then "-" + Decimal(-n) else Decimal(n)
  }

  function BlockKey(domainID: uint8): string {
    "chain:" + Print(domainID) + ":block"
  }

  /** The chain ID is narrowed to int64 before it is printed. */
  function NonceKey(chainID: int): string {
    "chain:" + Print(Int64(chainID)) + ":nonce"
  }

  function DigitValue(c: char): int {
    c as int - '0' as int
  }

  function Parse(s: string): int {
    if s == [] then 0 else 10 * Parse(s[..|s| - 1]) + DigitValue(s[|s| - 1])
  }

  lemma {:induction false} ParseDecimal(n: nat)
    ensures Parse(Decimal(n)) == n && Decimal(n) != [] && Decimal(n)[0] != '-'
  {
    var s := Decimal(n);
    if n < 10 {
      assert s[..|s| - 1] == [];
    } else {
      ParseDecimal(n / 10);
      assert s[..|s| - 1] == Decimal(n / 10);
    }
  }

  lemma PrintInjective(m: int, n: int)
    ensures Print(m) == Print(n) <==> m == n
  {
    ParseDecimal(if m < 0 then -m else m);
    ParseDecimal(if n < 0 then -n else n);
    if m < 0 { assert Print(m)[0] == '-' && Print(m)[1..] == Decimal(-m); }
    if n < 0 { assert Print(n)[0] == '-' && Print(n)[1..] == Decimal(-n); }
  }

  /** A number between the same prefix and the same suffix can be read off the key. */
  lemma KeyInjective(prefix: string, m: int, n: int, suffix: string)
    ensures prefix + Print(m) + suffix == prefix + Print(n) + suffix <==> m == n
  {
    PrintInjective(m, n);
    var s, t := prefix + Print(m) + suffix, prefix + Print(n) + suffix;
    assert s[|prefix|..|s| - |suffix|] == Print(m);
    assert t[|prefix|..|t| - |suffix|] == Print(n);
  }

  /** The keys as they are in a database. */
  lemma KeysPrinted()
    ensures BlockKey(255) == "chain:255:block"
    ensures NonceKey(42) == "chain:42:nonce" && NonceKey(TWO_64 - 1) == "chain:-1:nonce"
  {
    assert Decimal(2) == "2" && Decimal(25) == "25" && Decimal(255) == "255";
    assert Decimal(4) == "4" && Decimal(42) == "42" && Decimal(1) == "1";
    assert Int64(TWO_64 - 1) == -1;
  }

  lemma BlockKeyInjective(d: uint8, e: uint8)
    ensures BlockKey(d) == BlockKey(e) <==> d == e
  {
    KeyInjective("chain:", d, e, ":block");
  }

  /** Chains share a nonce key exactly when their IDs agree in the low 64 bits. */
  lemma NonceKeyInjective(a: int, b: int)
    ensures NonceKey(a) == NonceKey(b) <==> a % TWO_64 == b % TWO_64
  {
    KeyInjective("chain:", Int64(a), Int64(b), ":nonce");
  }

  lemma KeysDisjoint(d: uint8, chainID: int)
    ensures BlockKey(d) != NonceKey(chainID)
  {
    var s, t := BlockKey(d), NonceKey(chainID);
    assert s[|s| - 1] == 'k' && t[|t| - 1] == 'e';
  }

  // ---------- contents ----------

  type Database = map<string, seq<byte>>

  /** What a key holds, read as a number; a missing key reads as zero. */
  function NumberAt(db: Database, key: string): nat {
    if key in db then ToNat(db[key]) else 0
  }

  function StoredBlock(db: Database, domainID: uint8): nat {
    NumberAt(db, BlockKey(domainID))
  }

  function StoredNonce(db: Database, chainID: int): nat {
    NumberAt(db, NonceKey(chainID))
  }

  /** Apart from the block of one domain nothing a store can read has changed. */
  ghost predicate OthersUnchanged(domainID: uint8, before: Database, after: Database) {
    && (forall d: uint8 :: d != domainID ==> StoredBlock(after, d) == StoredBlock(before, d))
    && (forall c: int :: StoredNonce(after, c) == StoredNonce(before, c))
  }

  function Abs(n: int): nat {
    if n < 0 then -n else n
  }

  /** Storing a block is read back, and is invisible to every other domain and every nonce. */
  lemma BlockStored(db: Database, domainID: uint8, block: nat)
    ensures var after := db[BlockKey(domainID) := FromNat(block)];
            StoredBlock(after, domainID) == block && OthersUnchanged(domainID, db, after)
  {
    ToNatFromNat(block);
    forall d: uint8 | d != domainID
      ensures BlockKey(d) != BlockKey(domainID)
    {
      BlockKeyInjective(d, domainID);
    }
    forall c: int
      ensures NonceKey(c) != BlockKey(domainID)
    {
      KeysDisjoint(domainID, c);
    }
  }

  /** Storing a nonce is read back, and is invisible to every block and every chain with another key. */
  lemma NonceStored(db: Database, chainID: int, nonce: nat)
    ensures var after := db[NonceKey(chainID) := FromNat(nonce)];
            && (forall d: uint8 :: StoredBlock(after, d) == StoredBlock(db, d))
            && (forall c: int :: StoredNonce(after, c)
                                 == if c % TWO_64 == chainID % TWO_64 then nonce else StoredNonce(db, c))
  {
    ToNatFromNat(nonce);
    forall d: uint8
      ensures BlockKey(d) != NonceKey(chainID)
    {
      KeysDisjoint(d, chainID);
    }
    forall c: int
      ensures NonceKey(c) == NonceKey(chainID) <==> c % TWO_64 == chainID % TWO_64
    {
      NonceKeyInjective(c, chainID);
    }
  }

  /** The key-value store; `ok` is whether the database accepts the operation. */
  class KeyValueStore {
    var data: Database

    constructor ()
      ensures data == map[]
    {
      data := map[];
    }

    method SetByKey(key: string, value: seq<byte>, ok: bool) returns (r: Outcome<()>)
      modifies this
      ensures r == if ok then Ok(()) else Error
      ensures data == if ok then old(data)[key := value] else old(data)
    {
      if !ok {
        return Error;
      }
      data := data[key := value];
      r := Ok(());
    }

    /** A missing key is a distinguished error. */
    method GetByKey(key: string, ok: bool) returns (r: Outcome<Option<seq<byte>>>)
      ensures r == if !ok then Error else if key in data then Ok(Some(data[key])) else Ok(None)
    {
      r := if !ok then Error else if key in data then Ok(Some(data[key])) else Ok(None);
    }
  }

  class BlockStore {
    const db: KeyValueStore

    constructor (db: KeyValueStore)
      ensures this.db == db
    {
      this.db := db;
    }

    /** `Bytes` forgets the sign: a negative block is stored as its absolute value. */
    method StoreBlock(block: BigInt, domainID: uint8, ok: bool) returns (r: Outcome<()>)
      modifies db
      ensures r.Ok? <==> ok
      ensures !ok ==> db.data == old(db.data)
      ensures ok ==> StoredBlock(db.data, domainID) == if block.v < 0 then -block.v else block.v
      ensures OthersUnchanged(domainID, old(db.data), db.data)
    {
      BlockStored(db.data, domainID, Abs(block.v));
      r := db.SetByKey(BlockKey(domainID), FromNat(Abs(block.v)), ok);
    }

    method GetLastStoredBlock(domainID: uint8, ok: bool) returns (r: Outcome<BigInt>)
      ensures r.Ok? <==> ok
      ensures r.Ok? ==> fresh(r.value) && r.value.v == StoredBlock(db.data, domainID)
      ensures r.Ok? && BlockKey(domainID) !in db.data ==> r.value.v == 0
      ensures !r.Panic?
    {
      var v := db.GetByKey(BlockKey(domainID), ok);
      if v.Error? {
        return Error;
      }
      if v.value.None? {
        var zero := new BigInt(0);
        return Ok(zero);
      }
      var block := new BigInt(ToNat(v.value.value));
      r := Ok(block);
    }

    /** No block at all for a start at the head; the configured block itself, or a fresh later one. */
    method GetStartBlock(domainID: uint8, startBlock: BigInt, latest: bool, freshStart: bool, ok: bool)
      returns (r: Outcome<BigInt?>)
      ensures latest ==> r == Ok(null)
      ensures !latest && freshStart ==> r == Ok(startBlock)
      ensures !latest && !freshStart ==>
                && (r.Ok? <==> ok)
                && (r.Ok? && StoredBlock(db.data, domainID) <= startBlock.v ==> r == Ok(startBlock))
                && (r.Ok? && StoredBlock(db.data, domainID) > startBlock.v ==>
                      r.value != null && fresh(r.value) && r.value.v == StoredBlock(db.data, domainID))
      ensures !r.Panic?
    {
      if latest {
        return Ok(null);
      }
      if freshStart {
        return Ok(startBlock);
      }
      var latestBlock := GetLastStoredBlock(domainID, ok);
      if latestBlock.Error? {
        return Error;
      }
      var cmp := latestBlock.value.Cmp(startBlock);
      if cmp == 1 {
        r := Ok(latestBlock.value);
      } else {
        r := Ok(startBlock);
      }
    }
  }

  class NonceStore {
    const db: KeyValueStore

    constructor (db: KeyValueStore)
      ensures this.db == db
    {
      this.db := db;
    }

    /** Reading the bytes of a missing nonce dereferences nil. */
    method StoreNonce(chainID: BigInt, nonce: BigInt?, ok: bool) returns (r: Outcome<()>)
      modifies db
      ensures r.Panic? <==> nonce == null
      ensures r.Ok? <==> nonce != null && ok
      ensures !r.Ok? ==> db.data == old(db.data)
      ensures r.Ok? ==>
                && (forall c: int :: StoredNonce(db.data, c)
                      == if c % TWO_64 != chainID.v % TWO_64 then StoredNonce(old(db.data), c)
                         else if nonce.v < 0 then -nonce.v else nonce.v)
                && (forall d: uint8 :: StoredBlock(db.data, d) == StoredBlock(old(db.data), d))
    {
      if nonce == null {
        return Panic;
      }
      NonceStored(db.data, chainID.v, Abs(nonce.v));
      r := db.SetByKey(NonceKey(chainID.v), FromNat(Abs(nonce.v)), ok);
    }

    method GetNonce(chainID: BigInt, ok: bool) returns (r: Outcome<BigInt>)
      ensures r.Ok? <==> ok
      ensures r.Ok? ==> fresh(r.value) && r.value.v == StoredNonce(db.data, chainID.v)
      ensures r.Ok? && NonceKey(chainID.v) !in db.data ==> r.value.v == 0
      ensures !r.Panic?
    {
      var v := db.GetByKey(NonceKey(chainID.v), ok);
      if v.Error? {
        return Error;
      }
      if v.value.None? {
        var zero := new BigInt(0);
        return Ok(zero);
      }
      var nonce := new BigInt(ToNat(v.value.value));
      r := Ok(nonce);
    }
  }
}

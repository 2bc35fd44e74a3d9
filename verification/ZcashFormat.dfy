// Reading Zcash blocks and transactions off a byte string, as functions of the bytes and a position, and
// the layouts they are read from.
module ZcashFormat {
  import opened Bytes

  datatype Parse<+T> = Fail | Ok(value: T, pos: nat) {
    predicate IsFailure() { Fail? }

    function PropagateFailure<U>(): Parse<U>
      requires Fail?
    {
      Fail
    }

    function Extract(): (T, nat)
      requires Ok?
    {
      (value, pos)
    }
  }

  // The width of the program's usize, to which declared counts are cut.
  const USIZE := 0x1_0000_0000

  datatype TxIn = TxIn(txid: Bytes, vout: nat, script: Bytes, sequence: nat)
  datatype TxOut = TxOut(value: nat, script: Bytes)

  // The transparent part of a transaction, which is all the parser keeps.
  datatype Tx = Tx(version: int, inputs: seq<TxIn>, outputs: seq<TxOut>, lockTime: nat)

  datatype Header = Header(version: int, prevBlock: Bytes, merkleRoot: Bytes, time: nat, bits: nat, nonce: nat)
  datatype Block = Block(header: Header, txs: seq<Tx>)

  function ReadExact(data: Bytes, pos: nat, n: nat): (r: Parse<Bytes>)
    ensures r.Ok? ==> |r.value| == n && r.pos == pos + n <= |data|
  {
    if pos + n <= |data| then Ok(data[pos..pos + n], pos + n) else Fail
  }

  function ReadNumber(data: Bytes, pos: nat, n: nat): Parse<nat> {
    var (bytes, p) :- ReadExact(data, pos, n);
    Ok(FromLE(bytes), p)
  }

  // A 32-bit number read as signed.
  function Signed(x: nat): int {
    if x >= 0x8000_0000 then x - 0x1_0000_0000 else x
  }

  function ReadVarint(data: Bytes, pos: nat): Parse<nat> {
    var (bytes, p) :- ReadExact(data, pos, 1);
    if bytes[0] == 0xFF then ReadNumber(data, p, 8)
    else if bytes[0] == 0xFE then ReadNumber(data, p, 4)
    else if bytes[0] == 0xFD then ReadNumber(data, p, 2)
    else Ok(bytes[0], p)
  }

  // The length prefix of a script, which must be in its shortest form.
  function ReadLength(data: Bytes, pos: nat): Parse<nat> {
    var (n, p) :- ReadVarint(data, pos);
    if p - pos == |PrintVarint(n)| then Ok(n, p) else Fail
  }

  function ReadScript(data: Bytes, pos: nat): Parse<Bytes> {
    var (n, p) :- ReadLength(data, pos);
    ReadExact(data, p, n)
  }

  function ReadInput(data: Bytes, pos: nat): Parse<TxIn> {
    var (txid, p0) :- ReadExact(data, pos, 32);
    var (vout, p1) :- ReadNumber(data, p0, 4);
    var (script, p2) :- ReadScript(data, p1);
    var (sequence, p3) :- ReadNumber(data, p2, 4);
    Ok(TxIn(txid, vout, script, sequence), p3)
  }

  function ReadOutput(data: Bytes, pos: nat): Parse<TxOut> {
    var (value, p0) :- ReadNumber(data, pos, 8);
    var (script, p1) :- ReadScript(data, p0);
    Ok(TxOut(value, script), p1)
  }

  function ReadInputs(data: Bytes, pos: nat, count: nat): Parse<seq<TxIn>>
    decreases count
  {
    if count == 0 then Ok([], pos)
    else
      var (first, p) :- ReadInput(data, pos);
      var (rest, q) :- ReadInputs(data, p, count - 1);
      Ok([first] + rest, q)
  }

  function ReadOutputs(data: Bytes, pos: nat, count: nat): Parse<seq<TxOut>>
    decreases count
  {
    if count == 0 then Ok([], pos)
    else
      var (first, p) :- ReadOutput(data, pos);
      var (rest, q) :- ReadOutputs(data, p, count - 1);
      Ok([first] + rest, q)
  }

  // count chunks of the given size are read and thrown away.
  function Skip(data: Bytes, pos: nat, count: nat, size: nat): Parse<()>
    decreases count
  {
    if count == 0 then Ok((), pos)
    else
      var (_, p) :- ReadExact(data, pos, size);
      Skip(data, p, count - 1, size)
  }

  predicate IsOverwinter(version: int) {
    version >= 3 || (version < 0 && version + 0x1_0000_0000 >= 0x8000_0003)
  }

  // The Sapling sections of a transaction whose version number reads as 4 or more.
  function SkipSapling(data: Bytes, pos: nat): Parse<()> {
    var (_, p0) :- ReadExact(data, pos, 8);
    var (spends, p1) :- ReadVarint(data, p0);
    var (_, p2) :- Skip(data, p1, spends, 384);
    var (outputs, p3) :- ReadVarint(data, p2);
    Skip(data, p3, outputs, 948)
  }

  function SkipJoinSplits(data: Bytes, pos: nat, size: nat): Parse<()> {
    var (count, p0) :- ReadVarint(data, pos);
    if count == 0 then Ok((), p0)
    else
      var (_, p1) :- Skip(data, p0, count, size);
      var (_, p2) :- ReadExact(data, p1, 32);
      var (_, p3) :- ReadExact(data, p2, 64);
      Ok((), p3)
  }

  function SkipIf(condition: bool, data: Bytes, pos: nat, size: nat): Parse<()> {
    if !condition then Ok((), pos)
    else
      var (_, p) :- ReadExact(data, pos, size);
      Ok((), p)
  }

  // Everything after the lock time. For a version of 4 or more the 64 bytes of a binding signature are taken
  // whenever that many bytes are left.
  function SkipTail(data: Bytes, pos: nat, version: int): Parse<()> {
    var (_, p0) :- SkipIf(IsOverwinter(version), data, pos, 4);
    var (_, p1) :- if version >= 4 then SkipSapling(data, p0) else Ok((), p0);
    var (_, p2) :- if version >= 2 then SkipJoinSplits(data, p1, if version >= 4 then 1698 else 1802) else Ok((), p1);
    Ok((), if version >= 4 && p2 + 64 <= |data| then p2 + 64 else p2)
  }

  function ReadTransparent(data: Bytes, pos: nat): Parse<(seq<TxIn>, seq<TxOut>, nat)> {
    var (inputCount, p0) :- ReadVarint(data, pos);
    var (inputs, p1) :- ReadInputs(data, p0, inputCount % USIZE);
    var (outputCount, p2) :- ReadVarint(data, p1);
    var (outputs, p3) :- ReadOutputs(data, p2, outputCount % USIZE);
    var (lockTime, p4) :- ReadNumber(data, p3, 4);
    Ok((inputs, outputs, lockTime), p4)
  }

  function ParseTx(data: Bytes, pos: nat): Parse<Tx> {
    var (v, p0) :- ReadNumber(data, pos, 4);
    var version := Signed(v);
    var (_, p1) :- SkipIf(IsOverwinter(version), data, p0, 4);
    var (transparent, p2) :- ReadTransparent(data, p1);
    var (_, p3) :- SkipTail(data, p2, version);
    Ok(Tx(version, transparent.0, transparent.1, transparent.2), p3)
  }

  function ParseTxs(data: Bytes, pos: nat, count: nat): Parse<seq<Tx>>
    decreases count
  {
    if count == 0 then Ok([], pos)
    else
      var (first, p) :- ParseTx(data, pos);
      var (rest, q) :- ParseTxs(data, p, count - 1);
      Ok([first] + rest, q)
  }

  function ParseHeader(data: Bytes, pos: nat): Parse<Header> {
    var (v, p0) :- ReadNumber(data, pos, 4);
    var (prevBlock, p1) :- ReadExact(data, p0, 32);
    var (merkleRoot, p2) :- ReadExact(data, p1, 32);
    var (_, p3) :- ReadExact(data, p2, 32);
    var (time, p4) :- ReadNumber(data, p3, 4);
    var (bits, p5) :- ReadNumber(data, p4, 4);
    var (nonce, p6) :- ReadExact(data, p5, 32);
    var (size, p7) :- ReadVarint(data, p6);
    var (_, p8) :- ReadExact(data, p7, size % USIZE);
    Ok(Header(Signed(v), prevBlock, merkleRoot, time, bits, FromLE(nonce[..4])), p8)
  }

  function ParseBlock(data: Bytes, pos: nat): Parse<Block> {
    var (header, p0) :- ParseHeader(data, pos);
    var (count, p1) :- ReadVarint(data, p0);
    var (txs, p2) :- ParseTxs(data, p1, count % USIZE);
    Ok(Block(header, txs), p2)
  }

  // ---- The layouts: CompactSize numbers and sections 7.1, 7.2 and 7.6 of the Zcash Protocol Specification ----

  function PrintVarint(n: nat): (r: Bytes)
    ensures |r| <= 9
  {
    if n < 0xFD then [n]
    else if n < 0x1_0000 then [0xFD] + ToLE(n, 2)
    else if n < 0x1_0000_0000 then [0xFE] + ToLE(n, 4)
    else [0xFF] + ToLE(n, 8)
  }

  // A transaction as it is laid out: before Overwinter with JoinSplits from version 2 on, and from Overwinter
  // on with a version group, an expiry height and a shielded tail.
  datatype ZTx =
    | Sprout(version: nat, inputs: seq<TxIn>, outputs: seq<TxOut>, lockTime: nat,
             joinSplits: seq<Bytes>, joinSplitPubKey: Bytes, joinSplitSig: Bytes)
    | Overwintered(version: nat, groupId: Bytes, inputs: seq<TxIn>, outputs: seq<TxOut>, lockTime: nat,
                   expiryHeight: Bytes, tail: Bytes)

  datatype ZBlock = ZBlock(version: nat, prevBlock: Bytes, merkleRoot: Bytes, reserved: Bytes, time: nat, bits: nat,
                           nonce: Bytes, solution: Bytes, txs: seq<ZTx>)

  predicate ValidInput(i: TxIn) {
    |i.txid| == 32 && i.vout < Power256(4) && |i.script| < Power256(8) && i.sequence < Power256(4)
  }

  predicate ValidOutput(o: TxOut) {
    o.value < Power256(8) && |o.script| < Power256(8)
  }

  predicate ValidTx(t: ZTx) {
    && (forall i :: i in t.inputs ==> ValidInput(i))
    && (forall o :: o in t.outputs ==> ValidOutput(o))
    && |t.inputs| < USIZE && |t.outputs| < USIZE && t.lockTime < Power256(4)
    && match t
       case Sprout(version, _, _, _, joinSplits, pubKey, sig) =>
         && (version == 1 || version == 2)
         && (version == 1 ==> joinSplits == [])
         && |joinSplits| < Power256(8) && (forall j :: j in joinSplits ==> |j| == 1802)
         && |pubKey| == 32 && |sig| == 64
       case Overwintered(version, groupId, _, _, _, expiryHeight, tail) =>
         3 <= version <= 4 && |groupId| == 4 && |expiryHeight| == 4 && |tail| > 0
  }

  predicate ValidBlock(b: ZBlock) {
    && b.version < Power256(4) && |b.prevBlock| == 32 && |b.merkleRoot| == 32 && |b.reserved| == 32
    && b.time < Power256(4) && b.bits < Power256(4) && |b.nonce| == 32 && |b.solution| < USIZE
    && |b.txs| < USIZE && forall t :: t in b.txs ==> ValidTx(t)
  }

  function Concat(parts: seq<Bytes>): Bytes {
    if parts == [] then [] else parts[0] + Concat(parts[1..])
  }

  function PrintInput(i: TxIn): Bytes {
    i.txid + (ToLE(i.vout, 4) + ((PrintVarint(|i.script|) + i.script) + ToLE(i.sequence, 4)))
  }

  function PrintOutput(o: TxOut): Bytes {
    ToLE(o.value, 8) + (PrintVarint(|o.script|) + o.script)
  }

  function PrintInputs(inputs: seq<TxIn>): Bytes {
    if inputs == [] then [] else PrintInput(inputs[0]) + PrintInputs(inputs[1..])
  }

  function PrintOutputs(outputs: seq<TxOut>): Bytes {
    if outputs == [] then [] else PrintOutput(outputs[0]) + PrintOutputs(outputs[1..])
  }

  function PrintTransparent(inputs: seq<TxIn>, outputs: seq<TxOut>, lockTime: nat): Bytes {
    PrintVarint(|inputs|) + (PrintInputs(inputs) +
      (PrintVarint(|outputs|) + (PrintOutputs(outputs) + ToLE(lockTime, 4))))
  }

  function PrintJoinSplits(t: ZTx): Bytes
    requires t.Sprout?
  {
    if t.version < 2 then []
    else if t.joinSplits == [] then PrintVarint(0)
    else PrintVarint(|t.joinSplits|) + (Concat(t.joinSplits) + (t.joinSplitPubKey + t.joinSplitSig))
  }

  // The version field; from Overwinter on its top bit is set.
  function VersionField(t: ZTx): nat {
    if t.Sprout? then t.version else t.version + 0x8000_0000
  }

  function PrintTx(t: ZTx): Bytes {
    match t
    case Sprout(_, inputs, outputs, lockTime, _, _, _) =>
      ToLE(VersionField(t), 4) + (PrintTransparent(inputs, outputs, lockTime) + PrintJoinSplits(t))
    case Overwintered(_, groupId, inputs, outputs, lockTime, expiryHeight, tail) =>
      ToLE(VersionField(t), 4) + (groupId + (PrintTransparent(inputs, outputs, lockTime) + (expiryHeight + tail)))
  }

  // A version 5 transaction, which has its branch identifier, lock time and expiry height in front of the inputs.
  datatype ZTx5 = ZTx5(groupId: Bytes, branchId: Bytes, lockTime: nat, expiryHeight: Bytes,
                       inputs: seq<TxIn>, outputs: seq<TxOut>, tail: Bytes)

  predicate ValidTx5(t: ZTx5) {
    && (forall i :: i in t.inputs ==> ValidInput(i))
    && (forall o :: o in t.outputs ==> ValidOutput(o))
    && |t.inputs| < USIZE && |t.outputs| < USIZE && t.lockTime < Power256(4)
    && |t.groupId| == 4 && |t.branchId| == 4 && |t.expiryHeight| == 4
  }

  function PrintTx5(t: ZTx5): Bytes {
    ToLE(5 + 0x8000_0000, 4) + (t.groupId + (t.branchId + (ToLE(t.lockTime, 4) + (t.expiryHeight +
      (PrintVarint(|t.inputs|) + (PrintInputs(t.inputs) + (PrintVarint(|t.outputs|) + (PrintOutputs(t.outputs) +
      t.tail))))))))
  }

  function Kept5(t: ZTx5): Tx {
    Tx(Signed(5 + 0x8000_0000), t.inputs, t.outputs, t.lockTime)
  }

  function PrintTxs(txs: seq<ZTx>): Bytes {
    if txs == [] then [] else PrintTx(txs[0]) + PrintTxs(txs[1..])
  }

  function PrintHeader(b: ZBlock): Bytes {
    ToLE(b.version, 4) + (b.prevBlock + (b.merkleRoot + (b.reserved + (ToLE(b.time, 4) + (ToLE(b.bits, 4) +
      (b.nonce + (PrintVarint(|b.solution|) + b.solution)))))))
  }

  function PrintBlock(b: ZBlock): Bytes {
    PrintHeader(b) + (PrintVarint(|b.txs|) + PrintTxs(b.txs))
  }

  // What the parser keeps of a laid-out transaction and block.
  function Kept(t: ZTx): Tx {
    Tx(Signed(VersionField(t)), t.inputs, t.outputs, t.lockTime)
  }

  function KeptTxs(txs: seq<ZTx>): seq<Tx> {
    seq(|txs|, i requires 0 <= i < |txs| => Kept(txs[i]))
  }

  function KeptBlock(b: ZBlock): Block
    requires |b.nonce| == 32
  {
    Block(Header(Signed(b.version), b.prevBlock, b.merkleRoot, b.time, b.bits, FromLE(b.nonce[..4])), KeptTxs(b.txs))
  }
}

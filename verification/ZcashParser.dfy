// The parser as the program runs it: a cursor that advances over the block's bytes and loops that push what
// they read. Every method is proved against the functions of ZcashFormat.
module ZcashParser {
  import opened Common
  import opened Bytes
  import opened ZcashFormat

  // A method that reads value r as the function says: on success the cursor stands behind what was read; an
  // error leaves the whole parse failed, wherever the cursor stands.
  ghost predicate Agrees<T>(r: Option<T>, pos: nat, expected: Parse<T>) {
    match expected
    case Fail => r == None
    case Ok(value, p) => r == Some(value) && pos == p
  }

  class Cursor {
    const data: Bytes
    var pos: nat

    constructor (data: Bytes)
      ensures this.data == data && pos == 0
    {
      this.data, pos := data, 0;
    }

    method Exact(n: nat) returns (r: Option<Bytes>)
      modifies this
      ensures Agrees(r, pos, ReadExact(data, old(pos), n))
    {
      if pos + n > |data| {
        return None;
      }
      r := Some(data[pos..pos + n]);
      pos := pos + n;
    }

    method Number(n: nat) returns (r: Option<nat>)
      modifies this
      ensures Agrees(r, pos, ReadNumber(data, old(pos), n))
    {
      var bytes := Exact(n);
      if bytes.None? {
        return None;
      }
      return Some(FromLE(bytes.value));
    }

    method ConsumeVarint() returns (r: Option<nat>)
      modifies this
      ensures Agrees(r, pos, ReadVarint(data, old(pos)))
    {
      var first := Exact(1);
      if first.None? {
        return None;
      }
      var b := first.value[0];
      if b == 0xFF {
        r := Number(8);
      } else if b == 0xFE {
        r := Number(4);
      } else if b == 0xFD {
        r := Number(2);
      } else {
        r := Some(b);
      }
    }

    method Script() returns (r: Option<Bytes>)
      modifies this
      ensures Agrees(r, pos, ReadScript(data, old(pos)))
    {
      var start := pos;
      var n := ConsumeVarint();
      if n.None? || pos - start != |PrintVarint(n.value)| {
        return None;
      }
      r := Exact(n.value);
    }

    method Input() returns (r: Option<TxIn>)
      modifies this
      ensures Agrees(r, pos, ReadInput(data, old(pos)))
    {
      var txid := Exact(32);
      if txid.None? { return None; }
      var vout := Number(4);
      if vout.None? { return None; }
      var script := Script();
      if script.None? { return None; }
      var sequence := Number(4);
      if sequence.None? { return None; }
      return Some(TxIn(txid.value, vout.value, script.value, sequence.value));
    }

    method Output() returns (r: Option<TxOut>)
      modifies this
      ensures Agrees(r, pos, ReadOutput(data, old(pos)))
    {
      var value := Number(8);
      if value.None? { return None; }
      var script := Script();
      if script.None? { return None; }
      return Some(TxOut(value.value, script.value));
    }

    method Inputs(count: nat) returns (r: Option<seq<TxIn>>)
      modifies this
      ensures Agrees(r, pos, ReadInputs(data, old(pos), count))
    {
      hide ReadInput;
      var inputs: seq<TxIn> := [];
      JoinedNone(ReadInputs(data, pos, count));
      for i := 0 to count
        invariant Joined(inputs, ReadInputs(data, pos, count - i)) == ReadInputs(data, old(pos), count)
      {
        var x := Input();
        if x.None? { return None; }
        JoinedNext(inputs, x.value, ReadInputs(data, pos, count - i - 1));
        inputs := inputs + [x.value];
      }
      JoinedEnd(inputs, pos);
      return Some(inputs);
    }

    method Outputs(count: nat) returns (r: Option<seq<TxOut>>)
      modifies this
      ensures Agrees(r, pos, ReadOutputs(data, old(pos), count))
    {
      hide ReadOutput;
      var outputs: seq<TxOut> := [];
      JoinedNone(ReadOutputs(data, pos, count));
      for i := 0 to count
        invariant Joined(outputs, ReadOutputs(data, pos, count - i)) == ReadOutputs(data, old(pos), count)
      {
        var x := Output();
        if x.None? { return None; }
        JoinedNext(outputs, x.value, ReadOutputs(data, pos, count - i - 1));
        outputs := outputs + [x.value];
      }
      JoinedEnd(outputs, pos);
      return Some(outputs);
    }

    method SkipChunks(count: nat, size: nat) returns (r: Option<()>)
      modifies this
      ensures Agrees(r, pos, Skip(data, old(pos), count, size))
    {
      for i := 0 to count
        invariant Skip(data, pos, count - i, size) == Skip(data, old(pos), count, size)
      {
        var chunk := Exact(size);
        if chunk.None? { return None; }
      }
      return Some(());
    }

    method SkipSaplingSections() returns (r: Option<()>)
      modifies this
      ensures Agrees(r, pos, SkipSapling(data, old(pos)))
    {
      var balance := Exact(8);
      if balance.None? { return None; }
      var spends := ConsumeVarint();
      if spends.None? { return None; }
      var skipped := SkipChunks(spends.value, 384);
      if skipped.None? { return None; }
      var outputs := ConsumeVarint();
      if outputs.None? { return None; }
      r := SkipChunks(outputs.value, 948);
    }

    method SkipJoinSplitSection(size: nat) returns (r: Option<()>)
      modifies this
      ensures Agrees(r, pos, SkipJoinSplits(data, old(pos), size))
    {
      var count := ConsumeVarint();
      if count.None? { return None; }
      if count.value > 0 {
        var skipped := SkipChunks(count.value, size);
        if skipped.None? { return None; }
        var pubKey := Exact(32);
        if pubKey.None? { return None; }
        var sig := Exact(64);
        if sig.None? { return None; }
      }
      return Some(());
    }

    method SkipAfterLockTime(version: int) returns (r: Option<()>)
      modifies this
      ensures Agrees(r, pos, SkipTail(data, old(pos), version))
    {
      if IsOverwinter(version) {
        var expiryHeight := Exact(4);
        if expiryHeight.None? { return None; }
      }
      if version >= 4 {
        var sapling := SkipSaplingSections();
        if sapling.None? { return None; }
      }
      if version >= 2 {
        var joinSplits := SkipJoinSplitSection(if version >= 4 then 1698 else 1802);
        if joinSplits.None? { return None; }
      }
      if version >= 4 && pos + 64 <= |data| {
        var bindingSig := Exact(64);
      }
      return Some(());
    }

    method ParseTransaction() returns (r: Option<Tx>)
      modifies this
      ensures Agrees(r, pos, ParseTx(data, old(pos)))
    {
      var v := Number(4);
      if v.None? { return None; }
      var version := Signed(v.value);
      if IsOverwinter(version) {
        var groupId := Exact(4);
        if groupId.None? { return None; }
      }
      var inputCount := ConsumeVarint();
      if inputCount.None? { return None; }
      var inputs := Inputs(inputCount.value % USIZE);
      if inputs.None? { return None; }
      var outputCount := ConsumeVarint();
      if outputCount.None? { return None; }
      var outputs := Outputs(outputCount.value % USIZE);
      if outputs.None? { return None; }
      var lockTime := Number(4);
      if lockTime.None? { return None; }
      var skipped := SkipAfterLockTime(version);
      if skipped.None? { return None; }
      return Some(Tx(version, inputs.value, outputs.value, lockTime.value));
    }

    method Transactions(count: nat) returns (r: Option<seq<Tx>>)
      modifies this
      ensures Agrees(r, pos, ParseTxs(data, old(pos), count))
    {
      hide ParseTx;
      var txs: seq<Tx> := [];
      JoinedNone(ParseTxs(data, pos, count));
      for i := 0 to count
        invariant Joined(txs, ParseTxs(data, pos, count - i)) == ParseTxs(data, old(pos), count)
      {
        var x := ParseTransaction();
        if x.None? { return None; }
        JoinedNext(txs, x.value, ParseTxs(data, pos, count - i - 1));
        txs := txs + [x.value];
      }
      JoinedEnd(txs, pos);
      return Some(txs);
    }

    method BlockHeader() returns (r: Option<Header>)
      modifies this
      ensures Agrees(r, pos, ParseHeader(data, old(pos)))
    {
      var v := Number(4);
      if v.None? { return None; }
      var prevBlock := Exact(32);
      if prevBlock.None? { return None; }
      var merkleRoot := Exact(32);
      if merkleRoot.None? { return None; }
      var reserved := Exact(32);
      if reserved.None? { return None; }
      var time := Number(4);
      if time.None? { return None; }
      var bits := Number(4);
      if bits.None? { return None; }
      var nonce := Exact(32);
      if nonce.None? { return None; }
      var size := ConsumeVarint();
      if size.None? { return None; }
      var solution := Exact(size.value % USIZE);
      if solution.None? { return None; }
      return Some(Header(Signed(v.value), prevBlock.value, merkleRoot.value, time.value, bits.value,
                         FromLE(nonce.value[..4])));
    }

    method ParseZcashBlock() returns (r: Option<Block>)
      modifies this
      ensures Agrees(r, pos, ParseBlock(data, old(pos)))
    {
      var header := BlockHeader();
      if header.None? { return None; }
      var count := ConsumeVarint();
      if count.None? { return None; }
      var txs := Transactions(count.value % USIZE);
      if txs.None? { return None; }
      return Some(Block(header.value, txs.value));
    }
  }

  // What has been read so far in front of what the rest of the loop will read.
  function Joined<T>(done: seq<T>, rest: Parse<seq<T>>): Parse<seq<T>> {
    var (more, p) :- rest;
    Ok(done + more, p)
  }

  lemma JoinedNone<T>(rest: Parse<seq<T>>)
    ensures Joined([], rest) == rest
  {
    if rest.Ok? {
      assert [] + rest.value == rest.value;
    }
  }

  lemma JoinedEnd<T>(done: seq<T>, pos: nat)
    ensures Joined(done, Ok([], pos)) == Ok(done, pos)
  {
    assert done + [] == done;
  }

  lemma JoinedNext<T>(done: seq<T>, x: T, rest: Parse<seq<T>>)
    ensures Joined(done + [x], rest) == Joined(done, Joined([x], rest))
  {
    if rest.Ok? {
      assert (done + [x]) + rest.value == done + ([x] + rest.value);
    }
  }
}

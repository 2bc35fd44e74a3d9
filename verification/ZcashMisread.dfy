// What the Zcash parser makes of blocks and transactions that it does not read in step.
module ZcashMisread {
  import opened Bytes
  import opened ZcashFormat
  import opened ZcashRoundTrip

  // ---- Blocks with an Overwinter transaction before the last ----

  // The block that was laid out is the block that is read.
  ghost predicate ComesBack(data: Bytes, pos: nat, b: ZBlock)
    requires |b.nonce| == 32
  {
    ParseBlock(data, pos).Ok? && ParseBlock(data, pos).value == KeptBlock(b)
  }

  lemma RestIs(header: Header, front: seq<Tx>, rest: Parse<seq<Tx>>, back: seq<Tx>)
    ensures var block := WithTxs(header, Resume(front, rest));
      block.Ok? && block.value == Block(header, front + back) <==> rest.Ok? && rest.value == back
  {
    if rest.Ok? && front + rest.value == front + back {
      assert rest.value == (front + rest.value)[|front|..] == back;
    }
  }

  lemma KeptSplits(txs: seq<ZTx>, k: nat)
    requires k <= |txs|
    ensures KeptTxs(txs) == KeptTxs(txs[..k]) + KeptTxs(txs[k..])
  {
  }

  // A block comes back exactly if the parser makes the later transactions of what is left from the first
  // Overwinter one on.
  lemma ComesBackIff(before: Bytes, b: ZBlock, after: Bytes) returns (end: nat)
    requires ValidBlock(b)
    ensures end <= |before + PrintBlock(b)|
    ensures (before + PrintBlock(b) + after)[end..] == Left(b.txs) + after
    ensures var rest := ParseTxs(before + PrintBlock(b) + after, end, |b.txs| - InStep(b.txs));
      ComesBack(before + PrintBlock(b) + after, |before|, b) <==>
        rest.Ok? && rest.value == KeptTxs(b.txs[InStep(b.txs)..])
  {
    hide ParseBlock, PrintBlock, Left, InStep, ParseTxs, ValidTx, KeptTxs, Resume, WithTxs;
    var k := InStep(b.txs);
    end := BlockRoundTrip(before, b, after);
    KeptSplits(b.txs, k);
    RestIs(KeptBlock(b).header, KeptTxs(b.txs[..k]), ParseTxs(before + PrintBlock(b) + after, end, |b.txs| - k),
           KeptTxs(b.txs[k..]));
  }

  lemma {:induction false} LeftIs(txs: seq<ZTx>)
    requires InStep(txs) < |txs|
    ensures var k := InStep(txs); Left(txs) == txs[k - 1].tail + (PrintTx(txs[k]) + PrintTxs(txs[k..][1..]))
  {
    if txs[0].Sprout? {
      LeftIs(txs[1..]);
      assert txs[1..][InStep(txs[1..])..] == txs[InStep(txs)..];
    }
  }

  lemma VersionRead(data: Bytes, pos: nat, n: nat)
    requires n > 0 && ParseTxs(data, pos, n).Ok?
    ensures pos + 4 <= |data|
    ensures ParseTxs(data, pos, n).value != []
    ensures ParseTxs(data, pos, n).value[0].version == Signed(FromLE(data[pos..pos + 4]))
  {
    hide ReadTransparent, SkipTail, FromLE;
  }

  // One byte early, a version field reads 256 times the version.
  lemma ShiftedVersion(t: ZTx)
    requires ValidTx(t)
    ensures Signed(FromLE([0] + ToLE(VersionField(t), 4)[..3])) != Kept(t).version
  {
    hide ValidInput, ValidOutput;
    var v := t.version;
    LowBytes(v, VersionField(t));
    ShiftedNumber(v);
  }

  lemma LowBytes(v: byte, field: nat)
    requires 0 < v < 5 && (field == v || field == v + 0x8000_0000)
    ensures ToLE(field, 4)[..3] == [v, 0, 0]
  {
    assert ToLE(field, 4) == [v] + ToLE(field / 256, 3);
    assert ToLE(field / 256, 3) == [0] + ToLE(field / 0x1_0000, 2);
    assert ToLE(field / 0x1_0000, 2) == [0] + ToLE(field / 0x100_0000, 1);
  }

  lemma ShiftedNumber(v: byte)
    ensures FromLE([0] + [v, 0, 0]) == 256 * v as int
  {
    var a: Bytes, b: Bytes, c: Bytes := [0] + [v, 0, 0], [v, 0, 0], [0, 0];
    assert a[1..] == b && b[1..] == c && c[1..] == [0];
    assert FromLE([0]) == 0;
    assert FromLE(c) == 0;
    assert FromLE(b) == v;
  }

  lemma FieldFirst(t: ZTx, later: Bytes)
    ensures |PrintTx(t) + later| >= 4 && (PrintTx(t) + later)[..3] == ToLE(VersionField(t), 4)[..3]
  {
    hide PrintTransparent, PrintJoinSplits, VersionField;
  }

  lemma SliceFront(data: Bytes, pos: nat, first: byte, rest: Bytes)
    requires pos <= |data| && data[pos..] == [first] + rest && |rest| >= 3
    ensures pos + 4 <= |data| && data[pos..pos + 4] == [first] + rest[..3]
  {
    assert data[pos..pos + 4] == data[pos..][..4];
  }

  // No block comes back whose first Overwinter transaction has the tail of a version 3 transaction without
  // JoinSplits, a single zero count, and is followed by any other transaction.
  lemma NoJoinSplitsNoBlock(before: Bytes, b: ZBlock, after: Bytes)
    requires ValidBlock(b) && InStep(b.txs) < |b.txs| && b.txs[InStep(b.txs) - 1].tail == [0]
    ensures !ComesBack(before + PrintBlock(b) + after, |before|, b)
  {
    hide ParseTxs, PrintBlock, InStep, Left, ComesBack, ValidTx, PrintTx, VersionField, Kept, ToLE, FromLE, Signed;
    var data, k := before + PrintBlock(b) + after, InStep(b.txs);
    var next, later := b.txs[k], PrintTxs(b.txs[k..][1..]);
    var end := ComesBackIff(before, b, after);
    LeftIs(b.txs);
    FieldFirst(next, later + after);
    assert ([0] + (PrintTx(next) + later)) + after == [0] + (PrintTx(next) + (later + after));
    if ParseTxs(data, end, |b.txs| - k).Ok? {
      VersionRead(data, end, |b.txs| - k);
      var following := PrintTx(next) + (later + after);
      SliceFront(data, end, 0, following);
      ShiftedVersion(next);
      assert KeptTxs(b.txs[k..])[0] == Kept(next);
    }
  }

  // A tail can spell the next transaction, and then the block comes back all the same.
  lemma SpelledNextComesBack(before: Bytes, b: ZBlock, after: Bytes)
    requires ValidBlock(b) && InStep(b.txs) == |b.txs| - 1 && b.txs[InStep(b.txs)].Sprout?
    requires b.txs[InStep(b.txs) - 1].tail == PrintTx(b.txs[InStep(b.txs)])
    ensures !AllButLastSprout(b.txs) && ComesBack(before + PrintBlock(b) + after, |before|, b)
  {
    hide ParseTx, PrintBlock, InStep, Left, ComesBack, ValidTx, PrintTx, Kept;
    var data, k := before + PrintBlock(b) + after, InStep(b.txs);
    var next, later := b.txs[k], PrintTxs(b.txs[k..][1..]);
    var end := ComesBackIff(before, b, after);
    LeftIs(b.txs);
    var following := (PrintTx(next) + later) + after;
    assert (PrintTx(next) + (PrintTx(next) + later)) + after == PrintTx(next) + following;
    AtFront(data, end, PrintTx(next), following);
    AtTx(data, end, next);
    NoTxs(data, ParseTx(data, end).pos);
    assert KeptTxs(b.txs[k..]) == [Kept(next)] + [];
  }

  lemma AtFront(data: Bytes, pos: nat, bytes: Bytes, later: Bytes)
    requires pos <= |data| && data[pos..] == bytes + later
    ensures At(data, pos, bytes)
  {
    assert data[pos..pos + |bytes|] == data[pos..][..|bytes|];
  }

  // ---- Version 5 ----

  lemma InputTakesRoom(data: Bytes, pos: nat)
    requires ReadInput(data, pos).Ok?
    ensures pos + 41 <= ReadInput(data, pos).pos <= |data|
  {
    hide FromLE;
  }

  lemma {:induction false} InputsTakeRoom(data: Bytes, pos: nat, count: nat)
    requires ReadInputs(data, pos, count).Ok? && pos <= |data|
    ensures |ReadInputs(data, pos, count).value| == count
    ensures pos + 41 * count <= ReadInputs(data, pos, count).pos <= |data|
    decreases count
  {
    hide ReadInput;
    if count > 0 {
      InputTakesRoom(data, pos);
      InputsTakeRoom(data, ReadInput(data, pos).pos, count - 1);
    }
  }

  lemma CountRead(data: Bytes, pos: nat)
    requires ReadVarint(data, pos).Ok? && ReadTransparent(data, pos).Ok?
    ensures |ReadTransparent(data, pos).value.0| == ReadVarint(data, pos).value % USIZE
    ensures pos + 1 + 41 * (ReadVarint(data, pos).value % USIZE) <= |data|
  {
    hide ReadInputs, ReadOutputs, FromLE;
    InputsTakeRoom(data, ReadVarint(data, pos).pos, ReadVarint(data, pos).value % USIZE);
  }

  // A count reads the same wherever its bytes stand.
  lemma VarintMoves(data: Bytes, pos: nat, bytes: Bytes)
    requires At(data, pos, bytes) && |bytes| >= 9
    ensures ReadVarint(bytes, 0).Ok? && ReadVarint(data, pos).Ok?
    ensures ReadVarint(data, pos).value == ReadVarint(bytes, 0).value
  {
    hide FromLE;
    assert data[pos] == data[pos..pos + |bytes|][0];
    SliceMoves(data, pos, bytes, 2);
    SliceMoves(data, pos, bytes, 4);
    SliceMoves(data, pos, bytes, 8);
  }

  lemma SliceMoves(data: Bytes, pos: nat, bytes: Bytes, n: nat)
    requires At(data, pos, bytes) && 1 + n <= |bytes|
    ensures data[pos + 1..pos + 1 + n] == bytes[1..1 + n]
  {
    var whole := data[pos..pos + |bytes|];
    var here, there := data[pos + 1..pos + 1 + n], bytes[1..1 + n];
    forall i | 0 <= i < n ensures here[i] == there[i] {
      assert whole[1 + i] == data[pos + 1 + i];
    }
  }

  // What is read of a transaction whose version field has the Overwinter bit set, whatever follows its group.
  lemma OverwinterRead(data: Bytes, pos: nat, version: nat)
    requires 3 <= version < 0x8000_0000 && pos + 4 <= |data|
    requires ReadNumber(data, pos, 4) == Ok(version + 0x8000_0000, pos + 4) && ParseTx(data, pos).Ok?
    ensures ReadTransparent(data, pos + 8).Ok?
    ensures ParseTx(data, pos).value.version == Signed(version + 0x8000_0000)
    ensures ParseTx(data, pos).value.inputs == ReadTransparent(data, pos + 8).value.0
  {
    hide ReadTransparent, SkipTail, ReadNumber;
  }

  // The twelve bytes between the version group and the inputs of a version 5 transaction.
  function Unexpected(t: ZTx5): Bytes {
    t.branchId + (ToLE(t.lockTime, 4) + t.expiryHeight)
  }

  lemma UnexpectedAt(before: Bytes, t: ZTx5, after: Bytes)
    requires ValidTx5(t)
    ensures var data := before + PrintTx5(t) + after;
      ReadNumber(data, |before|, 4) == Ok(5 + 0x8000_0000, |before| + 4) && At(data, |before| + 8, Unexpected(t))
  {
    hide PrintInputs, PrintOutputs, PrintVarint, ToLE, ValidInput, ValidOutput;
    Powers256();
    var data, field := before + PrintTx5(t) + after, ToLE(5 + 0x8000_0000, 4);
    var rest := PrintTx5(t)[20..];
    assert PrintTx5(t) == field + (t.groupId + (Unexpected(t) + rest));
    AtWhole(before, PrintTx5(t), after);
    AtSplit(data, |before|, field, t.groupId + (Unexpected(t) + rest));
    AtNumber(data, |before|, 5 + 0x8000_0000, 4);
    AtSplit(data, |before| + 4, t.groupId, Unexpected(t) + rest);
    AtSplit(data, |before| + 8, Unexpected(t), rest);
  }

  // The number of inputs the parser looks for, which it takes from the branch identifier on.
  function CountTaken(t: ZTx5): nat {
    var count := ReadVarint(Unexpected(t), 0);
    if count.Ok? then count.value % USIZE else 0
  }

  // A version 5 transaction is read from its branch identifier on as if the inputs began there. So none comes
  // back that has another number of inputs than these bytes happen to spell, and parsing fails where there is
  // no room for as many.
  lemma Version5(before: Bytes, t: ZTx5, after: Bytes)
    requires ValidTx5(t)
    ensures var tx := ParseTx(before + PrintTx5(t) + after, |before|);
      && (tx.Ok? ==> tx.value.version == Kept5(t).version && |tx.value.inputs| == CountTaken(t))
      && (|t.inputs| != CountTaken(t) ==> !(tx.Ok? && tx.value == Kept5(t)))
      && (|PrintTx5(t) + after| < 9 + 41 * CountTaken(t) ==> tx.Fail?)
  {
    hide ParseTx, PrintTx5, ReadTransparent, ReadVarint, Unexpected;
    var data, pos := before + PrintTx5(t) + after, |before|;
    UnexpectedAt(before, t, after);
    assert |Unexpected(t)| == 12 by { TwelveBytes(t); }
    VarintMoves(data, pos + 8, Unexpected(t));
    if ParseTx(data, pos).Ok? {
      OverwinterRead(data, pos, 5);
      CountRead(data, pos + 8);
    }
  }

  lemma TwelveBytes(t: ZTx5)
    requires ValidTx5(t)
    ensures |Unexpected(t)| == 12
    ensures t.branchId[0] < 0xFD ==> CountTaken(t) == t.branchId[0]
  {
  }

  // The branch identifier of NU5, 0xC2D6D0B4 in ZIP 252, begins with the byte 0xB4: taken for 180 inputs.
  lemma Nu5NeedsRoom(before: Bytes, t: ZTx5, after: Bytes)
    requires ValidTx5(t) && t.branchId == [0xB4, 0xD0, 0xD6, 0xC2]
    ensures |PrintTx5(t) + after| < 7389 ==> ParseTx(before + PrintTx5(t) + after, |before|).Fail?
    ensures |t.inputs| != 180 ==>
      ParseTx(before + PrintTx5(t) + after, |before|).Fail?
      || ParseTx(before + PrintTx5(t) + after, |before|).value != Kept5(t)
  {
    Version5(before, t, after);
    TwelveBytes(t);
  }
}

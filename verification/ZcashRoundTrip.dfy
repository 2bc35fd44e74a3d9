// Parsing what has been laid out gives back what was laid out.
module ZcashRoundTrip {
  import opened Bytes
  import opened ZcashFormat

  // The bytes stand in data from pos on.
  ghost predicate At(data: Bytes, pos: nat, bytes: Bytes) {
    pos + |bytes| <= |data| && data[pos..pos + |bytes|] == bytes
  }

  lemma AtSplit(data: Bytes, pos: nat, a: Bytes, b: Bytes)
    requires At(data, pos, a + b)
    ensures At(data, pos, a) && At(data, pos + |a|, b)
  {
    assert data[pos..pos + |a|] == data[pos..pos + |a + b|][..|a|];
    assert data[pos + |a|..pos + |a| + |b|] == data[pos..pos + |a + b|][|a|..];
  }

  lemma AtNumber(data: Bytes, pos: nat, x: nat, n: nat)
    requires At(data, pos, ToLE(x, n)) && x < Power256(n)
    ensures ReadNumber(data, pos, n) == Ok(x, pos + n)
  {
    LERoundTrip(x, n);
  }

  // A printed count reads back, in the general reader and in the one that insists on the shortest form.
  lemma AtVarint(data: Bytes, pos: nat, n: nat)
    requires At(data, pos, PrintVarint(n)) && n < Power256(8)
    ensures ReadVarint(data, pos) == Ok(n, pos + |PrintVarint(n)|)
    ensures ReadLength(data, pos) == Ok(n, pos + |PrintVarint(n)|)
  {
    Powers256();
    if n < 0xFD {
    } else if n < 0x1_0000 {
      AtSplit(data, pos, [0xFD], ToLE(n, 2));
      AtNumber(data, pos + 1, n, 2);
    } else if n < 0x1_0000_0000 {
      AtSplit(data, pos, [0xFE], ToLE(n, 4));
      AtNumber(data, pos + 1, n, 4);
    } else {
      AtSplit(data, pos, [0xFF], ToLE(n, 8));
      AtNumber(data, pos + 1, n, 8);
    }
  }

  // The strict reader accepts a count only as printed.
  lemma LengthIsPrinted(data: Bytes, pos: nat)
    requires ReadLength(data, pos).Ok?
    ensures var n := ReadLength(data, pos).value; n < Power256(8) && At(data, pos, PrintVarint(n))
  {
    hide ToLE, FromLE, Power256;
    Powers256();
    var n := ReadLength(data, pos).value;
    var first := data[pos];
    var width := if first == 0xFF then 8 else if first == 0xFE then 4 else if first == 0xFD then 2 else 0;
    if width > 0 {
      var rest := data[pos + 1..pos + 1 + width];
      LEBelow(rest);
      LEInverse(rest);
      assert ReadVarint(data, pos) == Ok(FromLE(rest), pos + 1 + width);
      assert |PrintVarint(n)| == 1 + width;
      assert data[pos..pos + 1 + width] == [first] + rest;
    }
  }

  lemma AtScript(data: Bytes, pos: nat, script: Bytes)
    requires At(data, pos, PrintVarint(|script|) + script) && |script| < Power256(8)
    ensures ReadScript(data, pos) == Ok(script, pos + |PrintVarint(|script|) + script|)
  {
    AtSplit(data, pos, PrintVarint(|script|), script);
    AtVarint(data, pos, |script|);
  }

  lemma AtInput(data: Bytes, pos: nat, i: TxIn)
    requires At(data, pos, PrintInput(i)) && ValidInput(i)
    ensures ReadInput(data, pos) == Ok(i, pos + |PrintInput(i)|)
  {
    var script := PrintVarint(|i.script|) + i.script;
    AtSplit(data, pos, i.txid, ToLE(i.vout, 4) + (script + ToLE(i.sequence, 4)));
    AtSplit(data, pos + 32, ToLE(i.vout, 4), script + ToLE(i.sequence, 4));
    AtSplit(data, pos + 36, script, ToLE(i.sequence, 4));
    AtNumber(data, pos + 32, i.vout, 4);
    AtScript(data, pos + 36, i.script);
    AtNumber(data, pos + 36 + |script|, i.sequence, 4);
  }

  lemma AtOutput(data: Bytes, pos: nat, o: TxOut)
    requires At(data, pos, PrintOutput(o)) && ValidOutput(o)
    ensures ReadOutput(data, pos) == Ok(o, pos + |PrintOutput(o)|)
  {
    AtSplit(data, pos, ToLE(o.value, 8), PrintVarint(|o.script|) + o.script);
    AtNumber(data, pos, o.value, 8);
    AtScript(data, pos + 8, o.script);
  }

  lemma {:induction false} AtInputs(data: Bytes, pos: nat, inputs: seq<TxIn>)
    requires At(data, pos, PrintInputs(inputs)) && forall i :: i in inputs ==> ValidInput(i)
    ensures ReadInputs(data, pos, |inputs|) == Ok(inputs, pos + |PrintInputs(inputs)|)
    decreases |inputs|
  {
    hide ReadInput, PrintInput, ValidInput;
    if inputs != [] {
      AtSplit(data, pos, PrintInput(inputs[0]), PrintInputs(inputs[1..]));
      AtInput(data, pos, inputs[0]);
      AtInputs(data, pos + |PrintInput(inputs[0])|, inputs[1..]);
      assert [inputs[0]] + inputs[1..] == inputs;
    }
  }

  lemma {:induction false} AtOutputs(data: Bytes, pos: nat, outputs: seq<TxOut>)
    requires At(data, pos, PrintOutputs(outputs)) && forall o :: o in outputs ==> ValidOutput(o)
    ensures ReadOutputs(data, pos, |outputs|) == Ok(outputs, pos + |PrintOutputs(outputs)|)
    decreases |outputs|
  {
    hide ReadOutput, PrintOutput, ValidOutput;
    if outputs != [] {
      AtSplit(data, pos, PrintOutput(outputs[0]), PrintOutputs(outputs[1..]));
      AtOutput(data, pos, outputs[0]);
      AtOutputs(data, pos + |PrintOutput(outputs[0])|, outputs[1..]);
      assert [outputs[0]] + outputs[1..] == outputs;
    }
  }

  lemma {:induction false} AtChunks(data: Bytes, pos: nat, chunks: seq<Bytes>, size: nat)
    requires At(data, pos, Concat(chunks)) && forall c :: c in chunks ==> |c| == size
    ensures Skip(data, pos, |chunks|, size) == Ok((), pos + |Concat(chunks)|)
    decreases |chunks|
  {
    if chunks != [] {
      AtSplit(data, pos, chunks[0], Concat(chunks[1..]));
      AtChunks(data, pos + size, chunks[1..], size);
    }
  }

  lemma AtTransparent(data: Bytes, pos: nat, inputs: seq<TxIn>, outputs: seq<TxOut>, lockTime: nat)
    requires At(data, pos, PrintTransparent(inputs, outputs, lockTime))
    requires forall i :: i in inputs ==> ValidInput(i)
    requires forall o :: o in outputs ==> ValidOutput(o)
    requires |inputs| < USIZE && |outputs| < USIZE && lockTime < Power256(4)
    ensures ReadTransparent(data, pos) ==
      Ok((inputs, outputs, lockTime), pos + |PrintTransparent(inputs, outputs, lockTime)|)
  {
    hide ReadVarint, ReadInputs, ReadOutputs, ReadNumber;
    hide PrintVarint, PrintInputs, PrintOutputs, ValidInput, ValidOutput;
    Powers256();
    var e := ToLE(lockTime, 4);
    var d, c, b, a := PrintOutputs(outputs), PrintVarint(|outputs|), PrintInputs(inputs), PrintVarint(|inputs|);
    AtSplit(data, pos, a, b + (c + (d + e)));
    AtVarint(data, pos, |inputs|);
    var p := pos + |a|;
    AtSplit(data, p, b, c + (d + e));
    AtInputs(data, p, inputs);
    p := p + |b|;
    AtSplit(data, p, c, d + e);
    AtVarint(data, p, |outputs|);
    p := p + |c|;
    AtSplit(data, p, d, e);
    AtOutputs(data, p, outputs);
    AtNumber(data, p + |d|, lockTime, 4);
  }

  lemma AtJoinSplits(data: Bytes, pos: nat, t: ZTx)
    requires t.Sprout? && ValidTx(t) && At(data, pos, PrintJoinSplits(t))
    ensures SkipTail(data, pos, t.version) == Ok((), pos + |PrintJoinSplits(t)|)
  {
    hide ReadVarint, PrintVarint, Concat, Skip;
    if t.version == 2 {
      var n := PrintVarint(|t.joinSplits|);
      Powers256();
      if t.joinSplits == [] {
        AtVarint(data, pos, 0);
      } else {
        var chunks := Concat(t.joinSplits);
        AtSplit(data, pos, n, chunks + (t.joinSplitPubKey + t.joinSplitSig));
        AtVarint(data, pos, |t.joinSplits|);
        var p := pos + |n|;
        AtSplit(data, p, chunks, t.joinSplitPubKey + t.joinSplitSig);
        AtChunks(data, p, t.joinSplits, 1802);
      }
    }
  }

  // What an Overwinter transaction leaves unread.
  function Unread(t: ZTx): Bytes {
    if t.Sprout? then [] else t.tail
  }

  // A version field with the Overwinter bit set reads as a negative number, for which only the expiry height
  // is taken.
  lemma OverwinterTail(data: Bytes, pos: nat, version: nat)
    requires 3 <= version <= 4 && pos + 4 <= |data|
    ensures Signed(version + 0x8000_0000) < 0 && IsOverwinter(Signed(version + 0x8000_0000))
    ensures SkipTail(data, pos, Signed(version + 0x8000_0000)) == Ok((), pos + 4)
  {
  }

  lemma AtSprout(data: Bytes, pos: nat, t: ZTx)
    requires At(data, pos, PrintTx(t)) && ValidTx(t) && t.Sprout?
    ensures ParseTx(data, pos) == Ok(Kept(t), pos + |PrintTx(t)|)
  {
    hide ReadTransparent, PrintTransparent, SkipTail, PrintJoinSplits, ReadNumber;
    Powers256();
    var version, body := ToLE(VersionField(t), 4), PrintTransparent(t.inputs, t.outputs, t.lockTime);
    AtSplit(data, pos, version, body + PrintJoinSplits(t));
    AtNumber(data, pos, VersionField(t), 4);
    AtSplit(data, pos + 4, body, PrintJoinSplits(t));
    AtTransparent(data, pos + 4, t.inputs, t.outputs, t.lockTime);
    AtJoinSplits(data, pos + 4 + |body|, t);
  }

  lemma AtOverwintered(data: Bytes, pos: nat, t: ZTx)
    requires At(data, pos, PrintTx(t)) && ValidTx(t) && t.Overwintered?
    ensures ParseTx(data, pos).Ok? && ParseTx(data, pos).value == Kept(t)
    ensures ParseTx(data, pos).pos + |t.tail| == pos + |PrintTx(t)|
  {
    hide ReadTransparent, PrintTransparent, SkipTail, ReadNumber, ToLE, ValidInput, ValidOutput;
    Powers256();
    var version, body := ToLE(VersionField(t), 4), PrintTransparent(t.inputs, t.outputs, t.lockTime);
    AtSplit(data, pos, version, t.groupId + (body + (t.expiryHeight + t.tail)));
    AtNumber(data, pos, VersionField(t), 4);
    AtSplit(data, pos + 4, t.groupId, body + (t.expiryHeight + t.tail));
    AtSplit(data, pos + 8, body, t.expiryHeight + t.tail);
    AtTransparent(data, pos + 8, t.inputs, t.outputs, t.lockTime);
    AtSplit(data, pos + 8 + |body|, t.expiryHeight, t.tail);
    OverwinterTail(data, pos + 8 + |body|, t.version);
  }

  // Every valid transaction, wherever it stands: all of its transparent part is recovered, and the cursor ends
  // right behind it, except that the shielded tail of an Overwinter transaction is not read.
  lemma AtTx(data: Bytes, pos: nat, t: ZTx)
    requires At(data, pos, PrintTx(t)) && ValidTx(t)
    ensures ParseTx(data, pos).Ok? && ParseTx(data, pos).value == Kept(t)
    ensures ParseTx(data, pos).pos + |Unread(t)| == pos + |PrintTx(t)|
  {
    if t.Sprout? {
      AtSprout(data, pos, t);
    } else {
      AtOverwintered(data, pos, t);
    }
  }

  lemma AtWhole(before: Bytes, bytes: Bytes, after: Bytes)
    ensures At(before + bytes + after, |before|, bytes)
  {
  }

  // The parser consumes a transaction exactly when it is not an Overwinter one.
  lemma TxRoundTrip(before: Bytes, t: ZTx, after: Bytes)
    requires ValidTx(t)
    ensures ParseTx(before + PrintTx(t) + after, |before|).Ok?
    ensures ParseTx(before + PrintTx(t) + after, |before|).value == Kept(t)
    ensures ParseTx(before + PrintTx(t) + after, |before|).pos == |before + PrintTx(t)| <==> t.Sprout?
  {
    AtWhole(before, PrintTx(t), after);
    AtTx(before + PrintTx(t) + after, |before|, t);
  }

  predicate AllButLastSprout(txs: seq<ZTx>) {
    forall i :: 0 <= i < |txs| - 1 ==> txs[i].Sprout?
  }

  // How many transactions are read in step: those up to and with the first Overwinter one.
  function InStep(txs: seq<ZTx>): (k: nat)
    ensures k <= |txs|
    ensures k < |txs| ==> k > 0 && txs[k - 1].Overwintered?
  {
    if txs == [] then 0 else if txs[0].Overwintered? then 1 else 1 + InStep(txs[1..])
  }

  // What is left from there on: the unread shielded tail and all later transactions.
  function Left(txs: seq<ZTx>): Bytes {
    if txs == [] then []
    else if txs[0].Overwintered? then Unread(txs[0]) + PrintTxs(txs[1..])
    else Left(txs[1..])
  }

  // The transactions read in step, then whatever the parser makes of what follows.
  function Resume(front: seq<Tx>, rest: Parse<seq<Tx>>): Parse<seq<Tx>> {
    if rest.Fail? then Fail else Ok(front + rest.value, rest.pos)
  }

  // Transactions are read in step up to and with the first Overwinter one; the next one is then looked for in
  // the unread tail of that one.
  lemma {:induction false} AtTxs(data: Bytes, pos: nat, txs: seq<ZTx>) returns (end: nat)
    requires At(data, pos, PrintTxs(txs)) && forall t :: t in txs ==> ValidTx(t)
    ensures end + |Left(txs)| == pos + |PrintTxs(txs)| && At(data, end, Left(txs))
    ensures ParseTxs(data, pos, |txs|) ==
      Resume(KeptTxs(txs[..InStep(txs)]), ParseTxs(data, end, |txs| - InStep(txs)))
    decreases |txs|
  {
    hide ParseTx, PrintTx, ValidTx, Kept, KeptTxs, At, Resume;
    if txs == [] {
      end := pos;
      KeptFirst([], 0);
      ResumeAfter([], [], ParseTxs(data, pos, 0));
    } else {
      var first, rest := txs[0], txs[1..];
      AtSplit(data, pos, PrintTx(first), PrintTxs(rest));
      AtTx(data, pos, first);
      ParsesFirst(data, pos, |txs|);
      if first.Overwintered? {
        end := ParseTx(data, pos).pos;
        TailEnds(data, pos, end, first, PrintTxs(rest));
        KeptFirst(txs, 0);
      } else {
        end := AtTxs(data, pos + |PrintTx(first)|, rest);
        var k := InStep(rest);
        KeptFirst(txs, k);
        ResumeAfter([Kept(first)], KeptTxs(rest[..k]), ParseTxs(data, end, |rest| - k));
      }
    }
  }

  lemma ParsesFirst(data: Bytes, pos: nat, n: nat)
    requires n > 0 && ParseTx(data, pos).Ok?
    ensures var first := ParseTx(data, pos);
      ParseTxs(data, pos, n) == Resume([first.value], ParseTxs(data, first.pos, n - 1))
  {
    hide ParseTx;
  }

  lemma KeptFirst(txs: seq<ZTx>, k: nat)
    requires k <= |txs|
    ensures KeptTxs(txs[..0]) == []
    ensures txs != [] ==> KeptTxs(txs[..1]) == [Kept(txs[0])]
    ensures k < |txs| ==> KeptTxs(txs[..k + 1]) == [Kept(txs[0])] + KeptTxs(txs[1..][..k])
  {
  }

  lemma ResumeAfter(a: seq<Tx>, b: seq<Tx>, rest: Parse<seq<Tx>>)
    ensures Resume(a, Resume(b, rest)) == Resume(a + b, rest)
    ensures Resume([], rest) == rest
  {
    if rest.Ok? {
      assert a + (b + rest.value) == (a + b) + rest.value;
      assert [] + rest.value == rest.value;
    }
  }

  // The tail is the last part of its transaction.
  lemma TailEnds(data: Bytes, pos: nat, end: nat, t: ZTx, later: Bytes)
    requires t.Overwintered? && At(data, pos, PrintTx(t)) && At(data, pos + |PrintTx(t)|, later)
    requires end + |t.tail| == pos + |PrintTx(t)|
    ensures At(data, end, t.tail + later)
  {
    hide PrintTransparent, ToLE, VersionField;
    var body := PrintTransparent(t.inputs, t.outputs, t.lockTime);
    var front := ToLE(VersionField(t), 4) + (t.groupId + (body + t.expiryHeight));
    assert PrintTx(t) == front + t.tail;
    hide PrintTx;
    AtSplit(data, pos, front, t.tail);
    AtJoin(data, end, t.tail, later);
  }

  lemma AtJoin(data: Bytes, pos: nat, a: Bytes, b: Bytes)
    requires At(data, pos, a) && At(data, pos + |a|, b)
    ensures At(data, pos, a + b)
  {
    var mid, stop := pos + |a|, pos + |a + b|;
    assert data[pos..stop] == data[pos..mid] + data[mid..stop];
  }

  lemma NoTxs(data: Bytes, pos: nat)
    ensures ParseTxs(data, pos, 0) == Ok([], pos) && PrintTxs([]) == [] && KeptTxs([]) == []
  {
  }

  lemma HeaderParts(data: Bytes, pos: nat, b: ZBlock)
    requires At(data, pos, PrintHeader(b)) && ValidBlock(b)
    ensures At(data, pos, ToLE(b.version, 4)) && At(data, pos + 4, b.prevBlock) && At(data, pos + 36, b.merkleRoot)
    ensures At(data, pos + 68, b.reserved) && At(data, pos + 100, ToLE(b.time, 4))
    ensures At(data, pos + 104, ToLE(b.bits, 4))
    ensures At(data, pos + 108, b.nonce) && At(data, pos + 140, PrintVarint(|b.solution|))
    ensures At(data, pos + 140 + |PrintVarint(|b.solution|)|, b.solution)
    ensures |PrintHeader(b)| == 140 + |PrintVarint(|b.solution|)| + |b.solution|
  {
    hide PrintVarint, ToLE, ValidTx, At;
    var solution := PrintVarint(|b.solution|) + b.solution;
    var fromBits := ToLE(b.bits, 4) + (b.nonce + solution);
    var fromReserved := b.reserved + (ToLE(b.time, 4) + fromBits);
    AtSplit(data, pos, ToLE(b.version, 4), b.prevBlock + (b.merkleRoot + fromReserved));
    AtSplit(data, pos + 4, b.prevBlock, b.merkleRoot + fromReserved);
    AtSplit(data, pos + 36, b.merkleRoot, fromReserved);
    AtSplit(data, pos + 68, b.reserved, ToLE(b.time, 4) + fromBits);
    AtSplit(data, pos + 100, ToLE(b.time, 4), fromBits);
    AtSplit(data, pos + 104, ToLE(b.bits, 4), b.nonce + solution);
    AtSplit(data, pos + 108, b.nonce, solution);
    AtSplit(data, pos + 140, PrintVarint(|b.solution|), b.solution);
  }

  lemma AtHeader(data: Bytes, pos: nat, b: ZBlock)
    requires At(data, pos, PrintHeader(b)) && ValidBlock(b)
    ensures ParseHeader(data, pos) == Ok(KeptBlock(b).header, pos + |PrintHeader(b)|)
  {
    hide ReadVarint, PrintVarint, ReadNumber, ToLE, FromLE, ValidTx, PrintHeader;
    Powers256();
    HeaderParts(data, pos, b);
    AtNumber(data, pos, b.version, 4);
    AtNumber(data, pos + 100, b.time, 4);
    AtNumber(data, pos + 104, b.bits, 4);
    AtVarint(data, pos + 140, |b.solution|);
  }

  lemma {:induction false} NothingLeft(txs: seq<ZTx>)
    requires (forall t :: t in txs ==> ValidTx(t)) && AllButLastSprout(txs)
    ensures InStep(txs) == |txs|
    ensures Left(txs) == [] <==> forall t :: t in txs ==> t.Sprout?
  {
    if txs != [] {
      var rest := txs[1..];
      assert txs == [txs[0]] + rest;
      NothingLeft(rest);
      if txs[0].Overwintered? {
        assert rest == [];
      }
    }
  }

  // The block that is read when the transactions turn out as given.
  function WithTxs(header: Header, txs: Parse<seq<Tx>>): Parse<Block> {
    if txs.Fail? then Fail else Ok(Block(header, txs.value), txs.pos)
  }

  lemma AtBlock(data: Bytes, pos: nat, b: ZBlock) returns (end: nat)
    requires At(data, pos, PrintBlock(b)) && ValidBlock(b)
    ensures end + |Left(b.txs)| == pos + |PrintBlock(b)| && At(data, end, Left(b.txs))
    ensures ParseBlock(data, pos) == WithTxs(KeptBlock(b).header,
      Resume(KeptTxs(b.txs[..InStep(b.txs)]), ParseTxs(data, end, |b.txs| - InStep(b.txs))))
  {
    hide ParseHeader, PrintHeader, ParseTxs, PrintTxs, ReadVarint, PrintVarint, ValidTx, Left, InStep, At, Resume;
    Powers256();
    var count, txs := PrintVarint(|b.txs|), PrintTxs(b.txs);
    AtSplit(data, pos, PrintHeader(b), count + txs);
    AtHeader(data, pos, b);
    AtSplit(data, pos + |PrintHeader(b)|, count, txs);
    AtVarint(data, pos + |PrintHeader(b)|, |b.txs|);
    end := AtTxs(data, pos + |PrintHeader(b)| + |count|, b.txs);
  }

  // Every laid-out block: its header comes back, and so does the transparent part of its transactions up to and
  // with the first Overwinter one; the parser then goes on in the unread tail of that one as if a transaction
  // began there. So with no Overwinter transaction before the last the whole block comes back, and it is all
  // consumed exactly when the last is none either.
  lemma BlockRoundTrip(before: Bytes, b: ZBlock, after: Bytes) returns (end: nat)
    requires ValidBlock(b)
    ensures end + |Left(b.txs)| == |before + PrintBlock(b)|
    ensures (before + PrintBlock(b) + after)[end..] == Left(b.txs) + after
    ensures ParseBlock(before + PrintBlock(b) + after, |before|) == WithTxs(KeptBlock(b).header,
      Resume(KeptTxs(b.txs[..InStep(b.txs)]),
             ParseTxs(before + PrintBlock(b) + after, end, |b.txs| - InStep(b.txs))))
    ensures AllButLastSprout(b.txs) ==>
      && ParseBlock(before + PrintBlock(b) + after, |before|) == Ok(KeptBlock(b), end)
      && (end == |before + PrintBlock(b)| <==> forall t :: t in b.txs ==> t.Sprout?)
  {
    hide ParseBlock, PrintBlock, ValidTx, Left, InStep, At, KeptTxs;
    var data := before + PrintBlock(b) + after;
    AtWhole(before, PrintBlock(b), after);
    end := AtBlock(data, |before|, b);
    Remainder(before, PrintBlock(b), after, end, Left(b.txs));
    if AllButLastSprout(b.txs) {
      NothingLeft(b.txs);
      NoTxs(data, end);
      assert b.txs[..|b.txs|] == b.txs;
      assert KeptTxs(b.txs) + [] == KeptTxs(b.txs);
    }
  }

  lemma Remainder(before: Bytes, bytes: Bytes, after: Bytes, end: nat, left: Bytes)
    requires end + |left| == |before + bytes| && At(before + bytes + after, end, left)
    ensures (before + bytes + after)[end..] == left + after
  {
    var data := before + bytes + after;
    assert data[end..] == data[end..end + |left|] + data[|before + bytes|..];
  }

  // Counts outside scripts may be spelled longer than necessary: every count below 0xFD is also read from the
  // three-byte form, which the strict reader refuses.
  lemma LongCountAccepted(data: Bytes, pos: nat, n: nat)
    requires n < 0xFD && At(data, pos, [0xFD] + ToLE(n, 2))
    ensures ReadVarint(data, pos) == Ok(n, pos + 3) && ReadLength(data, pos) == Fail
  {
    Powers256();
    AtSplit(data, pos, [0xFD], ToLE(n, 2));
    AtNumber(data, pos + 1, n, 2);
  }
}

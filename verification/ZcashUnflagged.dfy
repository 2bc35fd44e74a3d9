// The layout that the Zcash parser does read to its end from version 3 on: a version number without the Overwinter
// bit, and every section where the parser looks for it.
module ZcashUnflagged {
  import opened Bytes
  import opened ZcashFormat
  import opened ZcashRoundTrip

  // Version numbers are read as two's complement.
  lemma SignedIs(x: nat)
    requires x < 0x1_0000_0000
    ensures -0x8000_0000 <= Signed(x) < 0x8000_0000 && (Signed(x) - x) % 0x1_0000_0000 == 0
    ensures Signed(x) < 0 <==> x >= 0x8000_0000
  {
  }

  // The version group and the expiry height are looked for exactly if the number without its top bit is 3 or more;
  // the sections after that only if the top bit is not set.
  lemma SectionsLookedFor(x: nat)
    requires x < 0x1_0000_0000
    ensures IsOverwinter(Signed(x)) <==> x % 0x8000_0000 >= 3
    ensures Signed(x) >= 4 <==> 4 <= x < 0x8000_0000
    ensures Signed(x) >= 2 <==> 2 <= x < 0x8000_0000
  {
  }

  datatype Shielded = Shielded(valueBalance: Bytes, spends: seq<Bytes>, outputs: seq<Bytes>)

  // bindingSig is empty or 64 bytes long.
  datatype UTx = UTx(version: nat, groupId: Bytes, inputs: seq<TxIn>, outputs: seq<TxOut>, lockTime: nat,
                     expiryHeight: Bytes, shielded: Shielded, joinSplits: seq<Bytes>, pubKey: Bytes, sig: Bytes,
                     bindingSig: Bytes)

  function JoinSplitSize(version: nat): nat {
    if version >= 4 then 1698 else 1802
  }

  predicate ValidShielded(s: Shielded) {
    && |s.valueBalance| == 8
    && |s.spends| < Power256(8) && (forall x :: x in s.spends ==> |x| == 384)
    && |s.outputs| < Power256(8) && (forall x :: x in s.outputs ==> |x| == 948)
  }

  predicate ValidUTx(t: UTx) {
    && 3 <= t.version < 0x8000_0000 && |t.groupId| == 4 && |t.expiryHeight| == 4
    && (forall i :: i in t.inputs ==> ValidInput(i))
    && (forall o :: o in t.outputs ==> ValidOutput(o))
    && |t.inputs| < USIZE && |t.outputs| < USIZE && t.lockTime < Power256(4)
    && ValidShielded(t.shielded)
    && |t.joinSplits| < Power256(8) && (forall j :: j in t.joinSplits ==> |j| == JoinSplitSize(t.version))
    && |t.pubKey| == 32 && |t.sig| == 64
    && (t.bindingSig == [] || |t.bindingSig| == 64)
  }

  function PrintShielded(s: Shielded): Bytes {
    s.valueBalance + (PrintVarint(|s.spends|) + (Concat(s.spends) + (PrintVarint(|s.outputs|) + Concat(s.outputs))))
  }

  function PrintSplits(t: UTx): Bytes {
    if t.joinSplits == [] then PrintVarint(0)
    else PrintVarint(|t.joinSplits|) + (Concat(t.joinSplits) + (t.pubKey + t.sig))
  }

  function PrintEnd(t: UTx): Bytes {
    t.expiryHeight + ((if t.version >= 4 then PrintShielded(t.shielded) else []) +
      (PrintSplits(t) + (if t.version >= 4 then t.bindingSig else [])))
  }

  function PrintUTx(t: UTx): Bytes {
    ToLE(t.version, 4) + (t.groupId + (PrintTransparent(t.inputs, t.outputs, t.lockTime) + PrintEnd(t)))
  }

  lemma AtRead(data: Bytes, pos: nat, bytes: Bytes)
    requires At(data, pos, bytes)
    ensures ReadExact(data, pos, |bytes|) == Ok(bytes, pos + |bytes|) && pos + |bytes| <= |data|
  {
  }

  // The sections of the shielded part, read one after the other.
  lemma ShieldedRead(data: Bytes, pos: nat, spends: nat, outputs: nat, p1: nat, p2: nat, p3: nat, p4: nat)
    requires ReadExact(data, pos, 8).Ok? && ReadVarint(data, pos + 8) == Ok(spends, p1)
    requires Skip(data, p1, spends, 384) == Ok((), p2) && ReadVarint(data, p2) == Ok(outputs, p3)
    requires Skip(data, p3, outputs, 948) == Ok((), p4)
    ensures SkipSapling(data, pos) == Ok((), p4)
  {
    hide ReadVarint, Skip;
  }

  lemma ShieldedParts(data: Bytes, pos: nat, s: Shielded)
    requires At(data, pos, PrintShielded(s)) && |s.valueBalance| == 8
    ensures var a, b, c, d := PrintVarint(|s.spends|), Concat(s.spends), PrintVarint(|s.outputs|), Concat(s.outputs);
      && At(data, pos, s.valueBalance) && At(data, pos + 8, a) && At(data, pos + 8 + |a|, b)
      && At(data, pos + 8 + |a| + |b|, c) && At(data, pos + 8 + |a| + |b| + |c|, d)
      && |PrintShielded(s)| == 8 + |a| + |b| + |c| + |d|
  {
    hide PrintVarint, Concat, At;
    var a, b, c, d := PrintVarint(|s.spends|), Concat(s.spends), PrintVarint(|s.outputs|), Concat(s.outputs);
    AtSplit(data, pos, s.valueBalance, a + (b + (c + d)));
    AtSplit(data, pos + 8, a, b + (c + d));
    AtSplit(data, pos + 8 + |a|, b, c + d);
    AtSplit(data, pos + 8 + |a| + |b|, c, d);
  }

  lemma AtShielded(data: Bytes, pos: nat, s: Shielded)
    requires At(data, pos, PrintShielded(s)) && ValidShielded(s)
    ensures SkipSapling(data, pos) == Ok((), pos + |PrintShielded(s)|)
  {
    hide ReadVarint, PrintVarint, Concat, Skip, ReadExact, At, SkipSapling, PrintShielded;
    ShieldedParts(data, pos, s);
    AtRead(data, pos, s.valueBalance);
    AtVarint(data, pos + 8, |s.spends|);
    var p1 := pos + 8 + |PrintVarint(|s.spends|)|;
    AtChunks(data, p1, s.spends, 384);
    var p2 := p1 + |Concat(s.spends)|;
    AtVarint(data, p2, |s.outputs|);
    var p3 := p2 + |PrintVarint(|s.outputs|)|;
    AtChunks(data, p3, s.outputs, 948);
    ShieldedRead(data, pos, |s.spends|, |s.outputs|, p1, p2, p3, p3 + |Concat(s.outputs)|);
  }

  lemma AtSplits(data: Bytes, pos: nat, t: UTx)
    requires At(data, pos, PrintSplits(t)) && ValidUTx(t)
    ensures SkipJoinSplits(data, pos, JoinSplitSize(t.version)) == Ok((), pos + |PrintSplits(t)|)
  {
    hide ReadVarint, PrintVarint, Concat, Skip, ReadExact, At, ValidInput, ValidOutput, ValidShielded, JoinSplitSize;
    Powers256();
    if t.joinSplits == [] {
      AtVarint(data, pos, 0);
    } else {
      var n, chunks := PrintVarint(|t.joinSplits|), Concat(t.joinSplits);
      AtSplit(data, pos, n, chunks + (t.pubKey + t.sig));
      AtVarint(data, pos, |t.joinSplits|);
      var p := pos + |n|;
      AtSplit(data, p, chunks, t.pubKey + t.sig);
      AtChunks(data, p, t.joinSplits, JoinSplitSize(t.version));
      AtSplit(data, p + |chunks|, t.pubKey, t.sig);
      AtRead(data, p + |chunks|, t.pubKey);
      AtRead(data, p + |chunks| + 32, t.sig);
    }
  }

  // How far the parser reads past a transaction without binding signature: 64 bytes, if as many follow.
  function Overread(t: UTx, following: nat): nat {
    if t.version >= 4 && t.bindingSig == [] && following >= 64 then 64 else 0
  }

  // The sections after the lock time, and where they begin.
  function ShieldedPart(t: UTx): Bytes {
    if t.version >= 4 then PrintShielded(t.shielded) else []
  }

  function Signature(t: UTx): Bytes {
    if t.version >= 4 then t.bindingSig else []
  }

  lemma EndParts(data: Bytes, pos: nat, t: UTx)
    requires At(data, pos, PrintEnd(t)) && |t.expiryHeight| == 4
    ensures At(data, pos, t.expiryHeight) && At(data, pos + 4, ShieldedPart(t))
    ensures At(data, pos + 4 + |ShieldedPart(t)|, PrintSplits(t))
    ensures At(data, pos + 4 + |ShieldedPart(t)| + |PrintSplits(t)|, Signature(t))
    ensures |PrintEnd(t)| == 4 + |ShieldedPart(t)| + |PrintSplits(t)| + |Signature(t)|
  {
    hide PrintShielded, PrintSplits, At;
    AtSplit(data, pos, t.expiryHeight, ShieldedPart(t) + (PrintSplits(t) + Signature(t)));
    AtSplit(data, pos + 4, ShieldedPart(t), PrintSplits(t) + Signature(t));
    AtSplit(data, pos + 4 + |ShieldedPart(t)|, PrintSplits(t), Signature(t));
  }

  lemma AtEnd(data: Bytes, pos: nat, t: UTx)
    requires At(data, pos, PrintEnd(t)) && ValidUTx(t)
    ensures var end := pos + |PrintEnd(t)|;
      SkipTail(data, pos, t.version) == Ok((), end + Overread(t, |data| - end))
  {
    hide SkipSapling, SkipJoinSplits, PrintShielded, PrintSplits, ValidInput, ValidOutput, ValidShielded, At, ReadExact;
    hide JoinSplitSize, PrintEnd, SkipTail;
    EndParts(data, pos, t);
    var p := pos + 4 + |ShieldedPart(t)|;
    AtRead(data, pos, t.expiryHeight);
    if t.version >= 4 {
      AtShielded(data, pos + 4, t.shielded);
    }
    AtSplits(data, p, t);
    SizeOf(t.version);
    AtRead(data, p + |PrintSplits(t)|, Signature(t));
    EndRead(data, pos, t.version, p, p + |PrintSplits(t)|);
  }

  lemma SizeOf(version: nat)
    ensures JoinSplitSize(version) == if version >= 4 then 1698 else 1802
  {
  }

  lemma EndRead(data: Bytes, pos: nat, version: nat, p: nat, q: nat)
    requires 3 <= version < 0x8000_0000 && ReadExact(data, pos, 4).Ok?
    requires if version >= 4 then SkipSapling(data, pos + 4) == Ok((), p) else p == pos + 4
    requires SkipJoinSplits(data, p, if version >= 4 then 1698 else 1802) == Ok((), q)
    ensures SkipTail(data, pos, version) == Ok((), if version >= 4 && q + 64 <= |data| then q + 64 else q)
  {
    hide SkipSapling, SkipJoinSplits;
  }

  lemma TxParts(data: Bytes, pos: nat, t: UTx)
    requires At(data, pos, PrintUTx(t)) && |t.groupId| == 4
    ensures var body := PrintTransparent(t.inputs, t.outputs, t.lockTime);
      && At(data, pos, ToLE(t.version, 4)) && At(data, pos + 4, t.groupId) && At(data, pos + 8, body)
      && At(data, pos + 8 + |body|, PrintEnd(t)) && |PrintUTx(t)| == 8 + |body| + |PrintEnd(t)|
  {
    hide PrintTransparent, PrintEnd, ToLE, At;
    var body := PrintTransparent(t.inputs, t.outputs, t.lockTime);
    AtSplit(data, pos, ToLE(t.version, 4), t.groupId + (body + PrintEnd(t)));
    AtSplit(data, pos + 4, t.groupId, body + PrintEnd(t));
    AtSplit(data, pos + 8, body, PrintEnd(t));
  }

  // A transaction of this layout, wherever it stands, gives back its transparent part, and the cursor ends behind
  // it, unless it has no binding signature and at least 64 bytes follow: these are then swallowed.
  lemma UnflaggedRoundTrip(before: Bytes, t: UTx, after: Bytes)
    requires ValidUTx(t)
    ensures ParseTx(before + PrintUTx(t) + after, |before|) ==
      Ok(Tx(t.version, t.inputs, t.outputs, t.lockTime), |before + PrintUTx(t)| + Overread(t, |after|))
  {
    hide ReadTransparent, PrintTransparent, SkipTail, PrintEnd, ReadNumber, ToLE, ValidInput, ValidOutput;
    hide ValidShielded, At, ReadExact, Overread, PrintUTx;
    Powers256();
    var data, pos := before + PrintUTx(t) + after, |before|;
    AtWhole(before, PrintUTx(t), after);
    TxParts(data, pos, t);
    AtNumber(data, pos, t.version, 4);
    AtRead(data, pos + 4, t.groupId);
    AtTransparent(data, pos + 8, t.inputs, t.outputs, t.lockTime);
    AtEnd(data, pos + 8 + |PrintTransparent(t.inputs, t.outputs, t.lockTime)|, t);
  }
}

/** Transactions on the wire: the plain form that is hashed for the txid and the segwit form of
    BIP144, with readers for both. */
module Transaction {
  import opened Bytes
  import opened Wrappers
  import opened Encode

  /** `prevout` and `sequence` are kept as bytes: 36 and 4 of them. */
  datatype TxIn = TxIn(prevout: seq<byte>, script: seq<byte>, sequence: seq<byte>)

  datatype TxOut = TxOut(value: u64, script: seq<byte>)

  datatype Tx = Tx(version: seq<byte>, ins: seq<TxIn>, outs: seq<TxOut>, locktime: seq<byte>)

  /** Field widths fit the format. Counts and lengths below 2^64 hold of every Rust vector. */
  predicate Sized(tx: Tx) {
    && |tx.version| == 4 && |tx.locktime| == 4
    && SizedIns(tx.ins) && SizedOuts(tx.outs)
  }

  predicate SizedIn(i: TxIn) {
    |i.prevout| == 36 && |i.sequence| == 4 && |i.script| < 0x1_0000_0000_0000_0000
  }

  predicate SizedOut(o: TxOut) {
    |o.script| < 0x1_0000_0000_0000_0000
  }

  predicate SizedIns(ins: seq<TxIn>) {
    |ins| < 0x1_0000_0000_0000_0000 && forall i :: 0 <= i < |ins| ==> SizedIn(ins[i])
  }

  predicate SizedOuts(outs: seq<TxOut>) {
    |outs| < 0x1_0000_0000_0000_0000 && forall i :: 0 <= i < |outs| ==> SizedOut(outs[i])
  }

  // ---------- writing ----------

  function VarBytes(s: seq<byte>): seq<byte>
    requires |s| < 0x1_0000_0000_0000_0000
  {
    Varint(|s|) + s
  }

  function InBytes(i: TxIn): seq<byte>
    requires SizedIn(i)
  {
    i.prevout + (VarBytes(i.script) + i.sequence)
  }

  function InsBytes(ins: seq<TxIn>): seq<byte>
    requires SizedIns(ins)
  {
    if ins == [] then [] else InBytes(ins[0]) + InsBytes(ins[1..])
  }

  function OutBytes(o: TxOut): seq<byte>
    requires SizedOut(o)
  {
    ToLE(o.value, 8) + VarBytes(o.script)
  }

  function OutsBytes(outs: seq<TxOut>): seq<byte>
    requires SizedOuts(outs)
  {
    if outs == [] then [] else OutBytes(outs[0]) + OutsBytes(outs[1..])
  }

  function InVec(ins: seq<TxIn>): seq<byte>
    requires SizedIns(ins)
  {
    Varint(|ins|) + InsBytes(ins)
  }

  function OutVec(outs: seq<TxOut>): seq<byte>
    requires SizedOuts(outs)
  {
    Varint(|outs|) + OutsBytes(outs)
  }

  /** Inputs and outputs with their counts: what both forms share. */
  function Body(tx: Tx): seq<byte>
    requires Sized(tx)
  {
    InVec(tx.ins) + OutVec(tx.outs)
  }

  /** The txid preimage. */
  function PlainBytes(tx: Tx): seq<byte>
    requires Sized(tx)
  {
    tx.version + (Body(tx) + tx.locktime)
  }

  /** The BIP144 form of a transaction whose one input has a one-item witness. */
  function SegwitBytes(tx: Tx, item: seq<byte>): seq<byte>
    requires Sized(tx) && |item| < 0x1_0000_0000_0000_0000
  {
    tx.version + (MARKER_AND_FLAG + (Body(tx) + (WitnessBytes(item) + tx.locktime)))
  }

  const MARKER_AND_FLAG: seq<byte> := [0x00, 0x01]

  function WitnessBytes(item: seq<byte>): seq<byte>
    requires |item| < 0x1_0000_0000_0000_0000
  {
    [1] + VarBytes(item)
  }

  // ---------- reading ----------

  function Read(b: seq<byte>, pos: nat, n: nat): Option<seq<byte>> {
    if pos + n <= |b| then Some(b[pos..pos + n]) else None
  }

  /** A length-prefixed byte string and the position after it. */
  function ReadVarBytes(b: seq<byte>, pos: nat): Option<(seq<byte>, nat)> {
    match ReadVarint(b, pos)
    case None => None
    case Some((len, used)) =>
      match Read(b, pos + used, len)
      case None => None
      case Some(s) => Some((s, pos + used + len))
  }

  function ReadIn(b: seq<byte>, pos: nat): Option<(TxIn, nat)> {
    match (Read(b, pos, 36), ReadVarBytes(b, pos + 36))
    case (Some(prevout), Some((script, end))) =>
      (match Read(b, end, 4)
       case Some(sequence) => Some((TxIn(prevout, script, sequence), end + 4))
       case None => None)
    case _ => None
  }

  function ReadOut(b: seq<byte>, pos: nat): Option<(TxOut, nat)> {
    match (Read(b, pos, 8), ReadVarBytes(b, pos + 8))
    case (Some(value), Some((script, end))) => Pow256Values(); Some((TxOut(FromLE(value), script), end))
    case _ => None
  }

  function ReadIns(b: seq<byte>, pos: nat, n: nat): Option<(seq<TxIn>, nat)>
    decreases n
  {
    if n == 0 then Some(([], pos))
    else match ReadIn(b, pos)
      case None => None
      case Some((i, end)) =>
        match ReadIns(b, end, n - 1)
        case None => None
        case Some((rest, last)) => Some(([i] + rest, last))
  }

  function ReadOuts(b: seq<byte>, pos: nat, n: nat): Option<(seq<TxOut>, nat)>
    decreases n
  {
    if n == 0 then Some(([], pos))
    else match ReadOut(b, pos)
      case None => None
      case Some((o, end)) =>
        match ReadOuts(b, end, n - 1)
        case None => None
        case Some((rest, last)) => Some(([o] + rest, last))
  }

  function ReadInVec(b: seq<byte>, pos: nat): Option<(seq<TxIn>, nat)> {
    match ReadVarint(b, pos)
    case None => None
    case Some((n, used)) => ReadIns(b, pos + used, n)
  }

  function ReadOutVec(b: seq<byte>, pos: nat): Option<(seq<TxOut>, nat)> {
    match ReadVarint(b, pos)
    case None => None
    case Some((n, used)) => ReadOuts(b, pos + used, n)
  }

  function ReadBody(b: seq<byte>, pos: nat): Option<(seq<TxIn>, seq<TxOut>, nat)> {
    match ReadInVec(b, pos)
    case None => None
    case Some((ins, mid)) =>
      match ReadOutVec(b, mid)
      case None => None
      case Some((outs, end)) => Some((ins, outs, end))
  }

  /** The one witness item of a one-input transaction. */
  function ReadWitness(b: seq<byte>, pos: nat): Option<(seq<byte>, nat)> {
    if pos >= |b| || b[pos] != 1 then None else ReadVarBytes(b, pos + 1)
  }

  /** A transaction read in either form: the transaction, the witness items of its only input
      (segwit form, one item) and the position after it. */
  function ReadTx(b: seq<byte>, pos: nat): Option<(Tx, Option<seq<byte>>, nat)> {
    match (Read(b, pos, 4), Read(b, pos + 4, 2))
    case (Some(version), Some(mark)) =>
      if mark == MARKER_AND_FLAG then
        match ReadBody(b, pos + 6)
        case None => None
        case Some((ins, outs, end)) =>
          match ReadWitness(b, end)
          case None => None
          case Some((item, lock)) =>
            match Read(b, lock, 4)
            case None => None
            case Some(locktime) => Some((Tx(version, ins, outs, locktime), Some(item), lock + 4))
      else
        (match ReadBody(b, pos + 4)
         case None => None
         case Some((ins, outs, end)) =>
           match Read(b, end, 4)
           case None => None
           case Some(locktime) => Some((Tx(version, ins, outs, locktime), None, end + 4)))
    case _ => None
  }

  // ---------- round trips ----------

  lemma ReadAt(b: seq<byte>, pos: nat, piece: seq<byte>)
    requires At(b, pos, piece)
    ensures Read(b, pos, |piece|) == Some(piece)
  {
  }

  lemma VarBytesRoundTrip(b: seq<byte>, pos: nat, s: seq<byte>)
    requires |s| < 0x1_0000_0000_0000_0000 && At(b, pos, VarBytes(s))
    ensures ReadVarBytes(b, pos) == Some((s, pos + |VarBytes(s)|))
    ensures ReadVarint(b, pos) == Some((|s|, VarintLen(|s|)))
  {
    AtSplit(b, pos, Varint(|s|), s);
    VarintRoundTrip(b, pos, |s|);
  }

  lemma InRoundTrip(b: seq<byte>, pos: nat, i: TxIn)
    requires SizedIn(i) && At(b, pos, InBytes(i))
    ensures ReadIn(b, pos) == Some((i, pos + |InBytes(i)|))
    ensures SkipVarBytes(b, pos + 36) == Some(pos + |InBytes(i)| - 4)
  {
    hide At, Varint, ReadVarint;
    var mid := pos + 36 + |VarBytes(i.script)|;
    AtSplit(b, pos, i.prevout, VarBytes(i.script) + i.sequence);
    AtSplit(b, pos + 36, VarBytes(i.script), i.sequence);
    ReadAt(b, pos, i.prevout);
    ReadAt(b, mid, i.sequence);
    VarBytesRoundTrip(b, pos + 36, i.script);
  }

  lemma OutRoundTrip(b: seq<byte>, pos: nat, o: TxOut)
    requires SizedOut(o) && At(b, pos, OutBytes(o))
    ensures ReadOut(b, pos) == Some((o, pos + |OutBytes(o)|))
    ensures SkipVarBytes(b, pos + 8) == Some(pos + |OutBytes(o)|)
  {
    hide At, Varint, ReadVarint;
    AtSplit(b, pos, ToLE(o.value, 8), VarBytes(o.script));
    ReadAt(b, pos, ToLE(o.value, 8));
    VarBytesRoundTrip(b, pos + 8, o.script);
    LE64RoundTrip(o.value);
  }

  lemma {:induction false} InsRoundTrip(b: seq<byte>, pos: nat, ins: seq<TxIn>)
    requires SizedIns(ins) && At(b, pos, InsBytes(ins))
    ensures ReadIns(b, pos, |ins|) == Some((ins, pos + |InsBytes(ins)|))
    ensures SkipIns(b, pos, |ins|) == Some(pos + |InsBytes(ins)|)
    decreases |ins|
  {
    hide At, InBytes, ReadIn, SkipVarBytes;
    if ins != [] {
      var i := ins[0];
      AtSplit(b, pos, InBytes(i), InsBytes(ins[1..]));
      InRoundTrip(b, pos, i);
      InsRoundTrip(b, pos + |InBytes(i)|, ins[1..]);
      assert [i] + ins[1..] == ins;
    }
  }

  lemma {:induction false} OutsRoundTrip(b: seq<byte>, pos: nat, outs: seq<TxOut>)
    requires SizedOuts(outs) && At(b, pos, OutsBytes(outs))
    ensures ReadOuts(b, pos, |outs|) == Some((outs, pos + |OutsBytes(outs)|))
    ensures SkipOuts(b, pos, |outs|) == Some(pos + |OutsBytes(outs)|)
    decreases |outs|
  {
    hide At, OutBytes, ReadOut, SkipVarBytes;
    if outs != [] {
      var o := outs[0];
      AtSplit(b, pos, OutBytes(o), OutsBytes(outs[1..]));
      OutRoundTrip(b, pos, o);
      OutsRoundTrip(b, pos + |OutBytes(o)|, outs[1..]);
      assert [o] + outs[1..] == outs;
    }
  }

  lemma InVecRoundTrip(b: seq<byte>, pos: nat, ins: seq<TxIn>)
    requires SizedIns(ins) && At(b, pos, InVec(ins))
    ensures ReadInVec(b, pos) == Some((ins, pos + |InVec(ins)|))
    ensures SkipInVec(b, pos) == Some(pos + |InVec(ins)|)
  {
    hide At, Varint, ReadVarint, InsBytes, ReadIns, SkipIns;
    AtSplit(b, pos, Varint(|ins|), InsBytes(ins));
    VarintRoundTrip(b, pos, |ins|);
    InsRoundTrip(b, pos + |Varint(|ins|)|, ins);
  }

  lemma OutVecRoundTrip(b: seq<byte>, pos: nat, outs: seq<TxOut>)
    requires SizedOuts(outs) && At(b, pos, OutVec(outs))
    ensures ReadOutVec(b, pos) == Some((outs, pos + |OutVec(outs)|))
    ensures SkipOutVec(b, pos) == Some(pos + |OutVec(outs)|)
  {
    hide At, Varint, ReadVarint, OutsBytes, ReadOuts, SkipOuts;
    AtSplit(b, pos, Varint(|outs|), OutsBytes(outs));
    VarintRoundTrip(b, pos, |outs|);
    OutsRoundTrip(b, pos + |Varint(|outs|)|, outs);
  }

  lemma BodyRoundTrip(b: seq<byte>, pos: nat, tx: Tx)
    requires Sized(tx) && At(b, pos, Body(tx))
    ensures ReadBody(b, pos) == Some((tx.ins, tx.outs, pos + |Body(tx)|))
    ensures SkipBody(b, pos) == Some(pos + |Body(tx)|)
  {
    hide At, InVec, OutVec, ReadInVec, ReadOutVec, SkipInVec, SkipOutVec;
    AtSplit(b, pos, InVec(tx.ins), OutVec(tx.outs));
    InVecRoundTrip(b, pos, tx.ins);
    OutVecRoundTrip(b, pos + |InVec(tx.ins)|, tx.outs);
  }

  /** A transaction with inputs cannot be mistaken for the segwit form. */
  lemma NoMarker(b: seq<byte>, pos: nat, tx: Tx)
    requires Sized(tx) && tx.ins != [] && At(b, pos, Body(tx))
    ensures Read(b, pos, 2).Some? && Read(b, pos, 2).value != MARKER_AND_FLAG
  {
    hide InsBytes, OutsBytes;
    assert |Varint(|tx.outs|)| > 0;
    assert b[pos] == b[pos..pos + |Body(tx)|][0] == InVec(tx.ins)[0] == Varint(|tx.ins|)[0];
  }

  /** The plain form reads back to the transaction, and `tx_len` measures it, whatever follows. */
  lemma PlainRoundTrip(b: seq<byte>, pos: nat, tx: Tx)
    requires Sized(tx) && tx.ins != [] && At(b, pos, PlainBytes(tx))
    ensures ReadTx(b, pos) == Some((tx, None, pos + |PlainBytes(tx)|))
  {
    hide At, Body, ReadBody, Read;
    AtSplit(b, pos, tx.version, Body(tx) + tx.locktime);
    AtSplit(b, pos + 4, Body(tx), tx.locktime);
    BodyRoundTrip(b, pos + 4, tx);
    NoMarker(b, pos + 4, tx);
    ReadAt(b, pos, tx.version);
    ReadAt(b, pos + 4 + |Body(tx)|, tx.locktime);
  }

  /** `tx_len` measures exactly the transaction at the front of its input, whatever follows. */
  lemma TxLenMeasures(b: seq<byte>, tx: Tx)
    requires Sized(tx) && At(b, 0, PlainBytes(tx))
    ensures TxLen(b) == Some(|PlainBytes(tx)|)
  {
    hide At, Body, SkipBody;
    AtSplit(b, 0, tx.version, Body(tx) + tx.locktime);
    AtSplit(b, 4, Body(tx), tx.locktime);
    BodyRoundTrip(b, 4, tx);
  }

  lemma WitnessRoundTrip(b: seq<byte>, pos: nat, item: seq<byte>)
    requires |item| < 0x1_0000_0000_0000_0000 && At(b, pos, WitnessBytes(item))
    ensures ReadWitness(b, pos) == Some((item, pos + |WitnessBytes(item)|))
  {
    hide VarBytes, ReadVarBytes;
    AtSplit(b, pos, [1], VarBytes(item));
    VarBytesRoundTrip(b, pos + 1, item);
    assert b[pos..pos + 1][0] == 1;
  }

  /** The segwit form reads back to the same transaction: stripping marker, flag and witness
      leaves exactly the txid preimage. */
  lemma SegwitRoundTrip(b: seq<byte>, pos: nat, tx: Tx, item: seq<byte>)
    requires Sized(tx) && |item| < 0x1_0000_0000_0000_0000
    requires At(b, pos, SegwitBytes(tx, item))
    ensures ReadTx(b, pos) == Some((tx, Some(item), pos + |SegwitBytes(tx, item)|))
  {
    hide At, Body, ReadBody, WitnessBytes, ReadWitness, Read;
    var end := pos + 6 + |Body(tx)|;
    AtSplit(b, pos, tx.version, MARKER_AND_FLAG + (Body(tx) + (WitnessBytes(item) + tx.locktime)));
    AtSplit(b, pos + 4, MARKER_AND_FLAG, Body(tx) + (WitnessBytes(item) + tx.locktime));
    AtSplit(b, pos + 6, Body(tx), WitnessBytes(item) + tx.locktime);
    AtSplit(b, end, WitnessBytes(item), tx.locktime);
    ReadAt(b, pos, tx.version);
    ReadAt(b, pos + 4, MARKER_AND_FLAG);
    ReadAt(b, end + |WitnessBytes(item)|, tx.locktime);
    BodyRoundTrip(b, pos + 6, tx);
    WitnessRoundTrip(b, end, item);
  }

  // ---------- tx_len ----------

  /** Positions only, as `tx_len` walks them; None where an index or slice would panic. */
  function SkipVarBytes(b: seq<byte>, pos: nat): Option<nat> {
    match ReadVarint(b, pos)
    case None => None
    case Some((len, used)) => Some(pos + used + len)
  }

  function SkipIns(b: seq<byte>, pos: nat, n: nat): Option<nat>
    decreases n
  {
    if n == 0 then Some(pos)
    else
      match SkipVarBytes(b, pos + 36)
      case None => None
      case Some(end) => SkipIns(b, end + 4, n - 1)
  }

  function SkipOuts(b: seq<byte>, pos: nat, n: nat): Option<nat>
    decreases n
  {
    if n == 0 then Some(pos)
    else
      match SkipVarBytes(b, pos + 8)
      case None => None
      case Some(end) => SkipOuts(b, end, n - 1)
  }

  function SkipInVec(b: seq<byte>, pos: nat): Option<nat> {
    match ReadVarint(b, pos)
    case None => None
    case Some((n, used)) => SkipIns(b, pos + used, n)
  }

  function SkipOutVec(b: seq<byte>, pos: nat): Option<nat> {
    match ReadVarint(b, pos)
    case None => None
    case Some((n, used)) => SkipOuts(b, pos + used, n)
  }

  function SkipBody(b: seq<byte>, pos: nat): Option<nat> {
    match SkipInVec(b, pos) case None => None case Some(mid) => SkipOutVec(b, mid)
  }

  function TxLen(b: seq<byte>): Option<nat> {
    match SkipBody(b, 4) case None => None case Some(end) => Some(end + 4)
  }

  method MeasureTx(b: seq<byte>) returns (len: Option<nat>)
    ensures len == TxLen(b)
  {
    hide ReadVarint;
    var nIn := ReadVarint(b, 4);
    if nIn.None? { return None; }
    var pos := SkipInputs(b, 4 + nIn.value.1, nIn.value.0);
    if pos.None? { return None; }
    var nOut := ReadVarint(b, pos.value);
    if nOut.None? { return None; }
    var end := SkipOutputs(b, pos.value + nOut.value.1, nOut.value.0);
    return match end case None => None case Some(p) => Some(p + 4);
  }

  method SkipInputs(b: seq<byte>, start: nat, n: nat) returns (end: Option<nat>)
    ensures end == SkipIns(b, start, n)
  {
    hide ReadVarint;
    var pos := start;
    var i := 0;
    while i < n
      invariant 0 <= i <= n
      invariant SkipIns(b, start, n) == SkipIns(b, pos, n - i)
    {
      pos := pos + 36;
      var script := ReadVarint(b, pos);
      if script.None? { return None; }
      pos := pos + script.value.1 + script.value.0 + 4;
      i := i + 1;
    }
    return Some(pos);
  }

  method SkipOutputs(b: seq<byte>, start: nat, n: nat) returns (end: Option<nat>)
    ensures end == SkipOuts(b, start, n)
  {
    hide ReadVarint;
    var pos := start;
    var i := 0;
    while i < n
      invariant 0 <= i <= n
      invariant SkipOuts(b, start, n) == SkipOuts(b, pos, n - i)
    {
      pos := pos + 8;
      var script := ReadVarint(b, pos);
      if script.None? { return None; }
      pos := pos + script.value.1 + script.value.0;
      i := i + 1;
    }
    return Some(pos);
  }
}

/** The byte encoding of order-book transactions: the printer, the parser, and when the
    parser gives back what was printed. */
module Hybrid {
  import opened Arithmetic
  import opened Types

  const TWO_TO_THE_64: int := 0x1_0000_0000_0000_0000

  /** No slice of memory is longer. */
  const MAX_LENGTH: int := 0x7fff_ffff_ffff_ffff

  type byte = x: int | 0 <= x < 256
  type u64 = x: int | 0 <= x < TWO_TO_THE_64

  // ---------- Big-endian integers ----------

  function Pow256(n: nat): (r: nat)
    ensures r > 0
  {
    if n == 0 then 1 else 256 * Pow256(n - 1)
  }

  function ToBytes(x: nat, n: nat): (s: seq<byte>)
    ensures |s| == n
  {
    if n == 0 then [] else ToBytes(x / 256, n - 1) + [x % 256]
  }

  function FromBytes(s: seq<byte>): (x: nat)
    ensures x < Pow256(|s|)
  {
    if s == [] then 0 else FromBytes(s[..|s| - 1]) * 256 + s[|s| - 1]
  }

  lemma {:induction false} BytesRoundTrip(x: nat, n: nat)
    requires x < Pow256(n)
    ensures FromBytes(ToBytes(x, n)) == x
  {
    if n > 0 {
      BytesRoundTrip(x / 256, n - 1);
      assert ToBytes(x, n)[..n - 1] == ToBytes(x / 256, n - 1);
    }
  }

  lemma {:induction false} Pow256Sum(a: nat, b: nat)
    ensures Pow256(a + b) == Pow256(a) * Pow256(b)
  {
    if a > 0 {
      Pow256Sum(a - 1, b);
      assert Pow256(a + b) == 256 * Pow256(a - 1 + b);
    }
  }

  lemma WordSizes()
    ensures Pow256(8) == TWO_TO_THE_64 && Pow256(32) == TWO_TO_THE_256
  {
    assert Pow256(1) == 256 && Pow256(2) == 0x1_0000;
    Pow256Sum(2, 2);
    Pow256Sum(4, 4);
    Pow256Sum(8, 8);
    Pow256Sum(16, 16);
  }

  function Print64(x: u64): seq<byte> { ToBytes(x, 8) }

  function Print256(x: U256): seq<byte> { ToBytes(x, 32) }

  function Parse64(s: seq<byte>): u64
    requires |s| == 8
  {
    WordSizes();
    FromBytes(s)
  }

  function Parse256(s: seq<byte>): U256
    requires |s| == 32
  {
    WordSizes();
    FromBytes(s)
  }

  lemma WordsRoundTrip()
    ensures forall x: u64 :: Parse64(Print64(x)) == x
    ensures forall x: U256 :: Parse256(Print256(x)) == x
  {
    WordSizes();
    forall x: u64 ensures Parse64(Print64(x)) == x { BytesRoundTrip(x, 8); }
    forall x: U256 ensures Parse256(Print256(x)) == x { BytesRoundTrip(x, 32); }
  }

  // ---------- Operations ----------

  datatype OrderType = Limit | Market | StopLimit | StopMarket

  datatype Side = Long | Short

  datatype Operation =
    | PlaceOrder(market: u64, orderType: OrderType, side: Side, price: U256, size: U256, leverage: byte,
                 postOnly: bool, reduceOnly: bool, expiresAt: Option<u64>)
    | CancelOrder(market: u64, orderIds: seq<u64>)
    | CancelAll(only: Option<u64>)
    | SetLeverage(market: u64, leverage: byte)
    | AdjustMargin(market: u64, amount: U256)

  function OrZero(x: Option<u64>): u64 {
    match x case None => 0 case Some(v) => v
  }

  function NonZero(x: u64): Option<u64> {
    if x == 0 then None else Some(x)
  }

  function OrderTypeByte(t: OrderType): byte {
    match t case Limit => 0 case Market => 1 case StopLimit => 2 case StopMarket => 3
  }

  function PrintIds(ids: seq<u64>): (s: seq<byte>)
    ensures |s| == 8 * |ids|
  {
    if ids == [] then [] else PrintIds(ids[..|ids| - 1]) + Print64(ids[|ids| - 1])
  }

  function Print(op: Operation): (s: seq<byte>)
    requires op.CancelOrder? ==> |op.orderIds| < TWO_TO_THE_64
    ensures |s| >= 9
  {
    match op
    case PlaceOrder(market, orderType, side, price, size, leverage, postOnly, reduceOnly, expiresAt) =>
      [0] + Print64(market) + [OrderTypeByte(orderType)] + [if side == Long then 0 else 1]
      + Print256(price) + Print256(size) + [leverage]
      + [if postOnly then 1 else 0] + [if reduceOnly then 1 else 0] + Print64(OrZero(expiresAt))
    case CancelOrder(market, ids) => [1] + Print64(market) + Print64(|ids|) + PrintIds(ids)
    case CancelAll(only) => [2] + Print64(OrZero(only))
    case SetLeverage(market, leverage) => [3] + Print64(market) + [leverage]
    case AdjustMargin(market, amount) => [4] + Print64(market) + Print256(amount)
  }

  /** Lists of identifiers are lists in memory. */
  predicate InMemory(ops: seq<Operation>) {
    forall i :: 0 <= i < |ops| && ops[i].CancelOrder? ==> |ops[i].orderIds| * 8 <= MAX_LENGTH
  }

  function PrintAll(ops: seq<Operation>): (s: seq<byte>)
    requires InMemory(ops)
    ensures ops == [] <==> s == []
    ensures ops != [] ==> |s| >= 9
  {
    if ops == [] then [] else Print(ops[0]) + PrintAll(ops[1..])
  }

  // ---------- Parsing ----------

  datatype Parsed = Parsed(op: Operation, next: nat) | Malformed | OutOfCapacity

  datatype Decoded = Decoded(ops: seq<Operation>) | InvalidFormat | CapacityOverflow

  function At64(data: seq<byte>, i: nat): u64
    requires i + 8 <= |data|
  {
    Parse64(data[i..i + 8])
  }

  function At256(data: seq<byte>, i: nat): U256
    requires i + 32 <= |data|
  {
    Parse256(data[i..i + 32])
  }

  function OrderTypeOf(b: byte): Option<OrderType> {
    if b == 0 then Some(Limit) else if b == 1 then Some(Market)
    else if b == 2 then Some(StopLimit) else if b == 3 then Some(StopMarket) else None
  }

  function IdsAt(data: seq<byte>, i: nat, count: nat): (ids: seq<u64>)
    requires i + 8 * count <= |data|
    ensures |ids| == count
  {
    if count == 0 then [] else IdsAt(data, i, count - 1) + [At64(data, i + 8 * (count - 1))]
  }

  /** A place order asks for 89 bytes and uses 85. */
  function PlaceOrderAt(data: seq<byte>, i: nat): (r: Parsed)
    ensures r.Parsed? ==> i < r.next <= |data|
  {
    if i + 89 > |data| then Malformed
    else
      match OrderTypeOf(data[i + 8])
      case None => Malformed
      case Some(orderType) =>
        Parsed(PlaceOrder(At64(data, i), orderType, if data[i + 9] == 0 then Long else Short,
                          At256(data, i + 10), At256(data, i + 42), data[i + 74],
                          data[i + 75] != 0, data[i + 76] != 0, NonZero(At64(data, i + 77))),
               i + 85)
  }

  /** Unsigned arithmetic of 64 bits. */
  function Wrap(x: nat): (r: u64)
    ensures x < TWO_TO_THE_64 ==> r == x
  {
    x % TWO_TO_THE_64
  }

  /** The number of identifiers is whatever the bytes say. The product and the sum wrap
      around, and a list longer than memory cannot be allocated. */
  function CancelOrderAt(data: seq<byte>, i: nat): (r: Parsed)
    requires |data| <= MAX_LENGTH
    ensures r.Parsed? ==> i < r.next <= |data|
  {
    if i + 16 > |data| then Malformed
    else
      var count := At64(data, i + 8);
      if Wrap(i + 16 + Wrap(count * 8)) > |data| then Malformed
      else if count * 8 > MAX_LENGTH then OutOfCapacity
      else Parsed(CancelOrder(At64(data, i), IdsAt(data, i + 16, count)), i + 16 + 8 * count)
  }

  function OperationAt(data: seq<byte>, i: nat): (r: Parsed)
    requires i < |data| <= MAX_LENGTH
    ensures r.Parsed? ==> i < r.next <= |data|
  {
    var kind, i := data[i], i + 1;
    if kind == 0 then PlaceOrderAt(data, i)
    else if kind == 1 then CancelOrderAt(data, i)
    else if kind == 2 then
      if i + 8 > |data| then Malformed else Parsed(CancelAll(NonZero(At64(data, i))), i + 8)
    else if kind == 3 then
      if i + 9 > |data| then Malformed else Parsed(SetLeverage(At64(data, i), data[i + 8]), i + 9)
    else if kind == 4 then
      if i + 40 > |data| then Malformed else Parsed(AdjustMargin(At64(data, i), At256(data, i + 8)), i + 40)
    else Malformed
  }

  function Prepend(ops: seq<Operation>, rest: Decoded): Decoded {
    match rest case Decoded(more) => Decoded(ops + more) case _ => rest
  }

  function DecodeFrom(data: seq<byte>, i: nat): Decoded
    requires i <= |data| <= MAX_LENGTH
    decreases |data| - i
  {
    if i == |data| then Decoded([])
    else
      match OperationAt(data, i)
      case Malformed => InvalidFormat
      case OutOfCapacity => CapacityOverflow
      case Parsed(op, next) => Prepend([op], DecodeFrom(data, next))
  }

  // ---------- Round trip ----------

  /** What the parser makes of an operation: zero stands for nothing. */
  function Normal(op: Operation): Operation {
    match op
    case PlaceOrder(_, _, _, _, _, _, _, _, expiresAt) => op.(expiresAt := NonZero(OrZero(expiresAt)))
    case CancelAll(only) => CancelAll(NonZero(OrZero(only)))
    case _ => op
  }

  function NormalAll(ops: seq<Operation>): (r: seq<Operation>)
    ensures |r| == |ops| && forall i :: 0 <= i < |ops| ==> r[i] == Normal(ops[i])
  {
    if ops == [] then [] else [Normal(ops[0])] + NormalAll(ops[1..])
  }

  predicate EndsInPlaceOrder(ops: seq<Operation>) {
    ops != [] && ops[|ops| - 1].PlaceOrder?
  }

  lemma Window(pre: seq<byte>, s: seq<byte>, post: seq<byte>, k: nat, n: nat)
    requires k + n <= |s|
    ensures (pre + s + post)[|pre| + k..|pre| + k + n] == s[k..k + n]
    ensures k < |s| ==> (pre + s + post)[|pre| + k] == s[k]
  {
  }

  /** Nine fields in 86 bytes. */
  predicate PlaceOrderLies(s: seq<byte>, i: nat, op: Operation)
    requires op.PlaceOrder?
  {
    && i + 86 <= |s| && s[i] == 0 && s[i + 1..i + 9] == Print64(op.market)
    && s[i + 9] == OrderTypeByte(op.orderType) && s[i + 10] == (if op.side == Long then 0 else 1)
    && s[i + 11..i + 43] == Print256(op.price) && s[i + 43..i + 75] == Print256(op.size)
    && s[i + 75] == op.leverage && s[i + 76] == (if op.postOnly then 1 else 0) && s[i + 77] == (if op.reduceOnly then 1 else 0)
    && s[i + 78..i + 86] == Print64(OrZero(op.expiresAt))
  }

  lemma PlaceOrderPrinted(op: Operation)
    requires op.PlaceOrder?
    ensures |Print(op)| == 86 && PlaceOrderLies(Print(op), 0, op)
  {
  }

  lemma PlaceOrderMoved(pre: seq<byte>, s: seq<byte>, post: seq<byte>, op: Operation)
    requires op.PlaceOrder? && |s| == 86 && PlaceOrderLies(s, 0, op)
    ensures PlaceOrderLies(pre + s + post, |pre|, op)
  {
    Window(pre, s, post, 0, 1);
    Window(pre, s, post, 1, 8);
    Window(pre, s, post, 9, 1);
    Window(pre, s, post, 10, 1);
    Window(pre, s, post, 11, 32);
    Window(pre, s, post, 43, 32);
    Window(pre, s, post, 75, 1);
    Window(pre, s, post, 76, 1);
    Window(pre, s, post, 77, 1);
    Window(pre, s, post, 78, 8);
  }

  lemma PlaceOrderParsed(data: seq<byte>, i: nat, op: Operation)
    requires |data| <= MAX_LENGTH && op.PlaceOrder? && PlaceOrderLies(data, i, op)
    ensures OperationAt(data, i) == if i + 90 > |data| then Malformed else Parsed(Normal(op), i + 86)
  {
    WordsRoundTrip();
  }

  lemma PrintIdsLast(ids: seq<u64>, n: nat)
    requires |ids| == n + 1
    ensures PrintIds(ids)[..8 * n] == PrintIds(ids[..n]) && PrintIds(ids)[8 * n..] == Print64(ids[n])
  {
    assert PrintIds(ids) == PrintIds(ids[..n]) + Print64(ids[n]);
  }

  lemma SplitSlice(data: seq<byte>, i: nat, m: nat, k: nat)
    requires i + m + k <= |data|
    ensures data[i..i + m] == data[i..i + m + k][..m] && data[i + m..i + m + k] == data[i..i + m + k][m..]
  {
  }

  /** Bytes that end in a printed word, read where they lie. */
  lemma LastWord(data: seq<byte>, i: nat, m: nat, s: seq<byte>, x: u64)
    requires i + m + 8 <= |data| && data[i..i + m + 8] == s && s[m..] == Print64(x)
    ensures data[i..i + m] == s[..m] && At64(data, i + m) == x
  {
    SplitSlice(data, i, m, 8);
    ReadsBack(data, i + m, x);
  }

  lemma ReadsBack(data: seq<byte>, i: nat, x: u64)
    requires i + 8 <= |data| && data[i..i + 8] == Print64(x)
    ensures At64(data, i) == x
  {
    WordsRoundTrip();
  }

  lemma {:induction false} IdsRoundTrip(data: seq<byte>, i: nat, ids: seq<u64>)
    requires i + 8 * |ids| <= |data| && data[i..i + 8 * |ids|] == PrintIds(ids)
    ensures IdsAt(data, i, |ids|) == ids
  {
    if ids != [] {
      var n := |ids| - 1;
      assert 8 * |ids| == 8 * n + 8;
      PrintIdsLast(ids, n);
      LastWord(data, i, 8 * n, PrintIds(ids), ids[n]);
      IdsRoundTrip(data, i, ids[..n]);
    }
  }

  predicate CancelOrderLies(s: seq<byte>, i: nat, op: Operation)
    requires op.CancelOrder? && |op.orderIds| < TWO_TO_THE_64
  {
    var n := |op.orderIds|;
    && i + 17 + 8 * n <= |s| && s[i] == 1 && s[i + 1..i + 9] == Print64(op.market)
    && s[i + 9..i + 17] == Print64(n) && s[i + 17..i + 17 + 8 * n] == PrintIds(op.orderIds)
  }

  lemma CancelOrderPrinted(op: Operation)
    requires op.CancelOrder? && |op.orderIds| < TWO_TO_THE_64
    ensures |Print(op)| == 17 + 8 * |op.orderIds| && CancelOrderLies(Print(op), 0, op)
  {
  }

  lemma CancelOrderMoved(pre: seq<byte>, s: seq<byte>, post: seq<byte>, op: Operation)
    requires op.CancelOrder? && |op.orderIds| < TWO_TO_THE_64
    requires |s| == 17 + 8 * |op.orderIds| && CancelOrderLies(s, 0, op)
    ensures CancelOrderLies(pre + s + post, |pre|, op)
  {
    Window(pre, s, post, 0, 1);
    Window(pre, s, post, 1, 8);
    Window(pre, s, post, 9, 8);
    Window(pre, s, post, 17, 8 * |op.orderIds|);
  }

  /** A list that is really there is neither cut off nor too long. */
  lemma CountFits(data: seq<byte>, i: nat, market: u64, ids: seq<u64>)
    requires |data| <= MAX_LENGTH && |ids| * 8 <= MAX_LENGTH && i + 16 + 8 * |ids| <= |data|
    requires At64(data, i) == market && At64(data, i + 8) == |ids| && IdsAt(data, i + 16, |ids|) == ids
    ensures CancelOrderAt(data, i) == Parsed(CancelOrder(market, ids), i + 16 + 8 * |ids|)
  {
    assert Wrap(|ids| * 8) == |ids| * 8 && Wrap(i + 16 + |ids| * 8) == i + 16 + |ids| * 8;
  }

  lemma CancelOrderParsed(data: seq<byte>, i: nat, op: Operation)
    requires |data| <= MAX_LENGTH && op.CancelOrder? && |op.orderIds| * 8 <= MAX_LENGTH && CancelOrderLies(data, i, op)
    ensures OperationAt(data, i) == Parsed(op, i + 17 + 8 * |op.orderIds|)
  {
    WordsRoundTrip();
    IdsRoundTrip(data, i + 17, op.orderIds);
    CountFits(data, i + 1, op.market, op.orderIds);
  }

  predicate OtherLies(s: seq<byte>, i: nat, op: Operation)
    requires !op.PlaceOrder? && !op.CancelOrder?
  {
    match op
    case CancelAll(only) => i + 9 <= |s| && s[i] == 2 && s[i + 1..i + 9] == Print64(OrZero(only))
    case SetLeverage(market, leverage) => i + 10 <= |s| && s[i] == 3 && s[i + 1..i + 9] == Print64(market) && s[i + 9] == leverage
    case AdjustMargin(market, amount) =>
      i + 41 <= |s| && s[i] == 4 && s[i + 1..i + 9] == Print64(market) && s[i + 9..i + 41] == Print256(amount)
  }

  lemma OtherPrinted(op: Operation)
    requires !op.PlaceOrder? && !op.CancelOrder?
    ensures OtherLies(Print(op), 0, op)
  {
  }

  lemma OtherMoved(pre: seq<byte>, s: seq<byte>, post: seq<byte>, op: Operation)
    requires !op.PlaceOrder? && !op.CancelOrder? && OtherLies(s, 0, op)
    ensures OtherLies(pre + s + post, |pre|, op)
  {
    Window(pre, s, post, 0, 1);
    Window(pre, s, post, 1, 8);
    if op.SetLeverage? { Window(pre, s, post, 9, 1); }
    if op.AdjustMargin? { Window(pre, s, post, 9, 32); }
  }

  lemma OtherParsed(data: seq<byte>, i: nat, op: Operation)
    requires |data| <= MAX_LENGTH && !op.PlaceOrder? && !op.CancelOrder? && OtherLies(data, i, op)
    ensures OperationAt(data, i) == Parsed(Normal(op), i + if op.CancelAll? then 9 else if op.SetLeverage? then 10 else 41)
  {
    WordsRoundTrip();
  }

  /** Wherever these bytes stand, the parser reads the operation, unless it is a place
      order and fewer than four bytes follow. */
  ghost predicate Reads(s: seq<byte>, op: Operation) {
    s != [] && forall pre: seq<byte>, post: seq<byte> :: |pre + s + post| <= MAX_LENGTH ==>
      OperationAt(pre + s + post, |pre|) ==
      if op.PlaceOrder? && |post| < 4 then Malformed else Parsed(Normal(op), |pre| + |s|)
  }

  lemma PrintedReads(op: Operation)
    requires op.CancelOrder? ==> |op.orderIds| * 8 <= MAX_LENGTH
    ensures |Print(op)| > 0 && Reads(Print(op), op)
  {
    var s := Print(op);
    match op {
      case PlaceOrder(_, _, _, _, _, _, _, _, _) => PlaceOrderPrinted(op);
      case CancelOrder(_, _) => CancelOrderPrinted(op);
      case _ => OtherPrinted(op);
    }
    BytesRead(s, op);
  }

  lemma BytesRead(s: seq<byte>, op: Operation)
    requires op.PlaceOrder? ==> |s| == 86 && PlaceOrderLies(s, 0, op)
    requires op.CancelOrder? ==> |op.orderIds| * 8 <= MAX_LENGTH && |s| == 17 + 8 * |op.orderIds| && CancelOrderLies(s, 0, op)
    requires !op.PlaceOrder? && !op.CancelOrder? ==>
      OtherLies(s, 0, op) && |s| == if op.CancelAll? then 9 else if op.SetLeverage? then 10 else 41
    ensures Reads(s, op)
  {
    forall pre: seq<byte>, post: seq<byte> | |pre + s + post| <= MAX_LENGTH
      ensures OperationAt(pre + s + post, |pre|) ==
              if op.PlaceOrder? && |post| < 4 then Malformed else Parsed(Normal(op), |pre| + |s|)
    {
      match op {
        case PlaceOrder(_, _, _, _, _, _, _, _, _) =>
          PlaceOrderMoved(pre, s, post, op);
          PlaceOrderParsed(pre + s + post, |pre|, op);
        case CancelOrder(_, _) =>
          CancelOrderMoved(pre, s, post, op);
          CancelOrderParsed(pre + s + post, |pre|, op);
        case _ =>
          OtherMoved(pre, s, post, op);
          OtherParsed(pre + s + post, |pre|, op);
      }
    }
  }

  /** The bytes of the first operation, and of the rest. */
  lemma FirstAndRest(ops: seq<Operation>) returns (s: seq<byte>, post: seq<byte>)
    requires ops != [] && InMemory(ops)
    ensures InMemory(ops[1..]) && post == PrintAll(ops[1..]) && PrintAll(ops) == s + post
    ensures |s| > 0 && Reads(s, ops[0]) && (ops[1..] != [] ==> |post| >= 4)
  {
    PrintedReads(ops[0]);
    s, post := Print(ops[0]), PrintAll(ops[1..]);
  }

  lemma ReadsAt(data: seq<byte>, pre: seq<byte>, s: seq<byte>, post: seq<byte>, op: Operation)
    requires Reads(s, op) && data == pre + s + post && |data| <= MAX_LENGTH
    ensures |pre| < |data| && |pre + s| == |pre| + |s| <= |data|
    ensures OperationAt(data, |pre|) == if op.PlaceOrder? && |post| < 4 then Malformed else Parsed(Normal(op), |pre + s|)
  {
  }

  lemma DecodeMalformed(data: seq<byte>, i: nat)
    requires i < |data| <= MAX_LENGTH && OperationAt(data, i) == Malformed
    ensures DecodeFrom(data, i) == InvalidFormat
  {
  }

  lemma DecodeParsed(data: seq<byte>, i: nat, op: Operation, next: nat)
    requires i < |data| <= MAX_LENGTH && OperationAt(data, i) == Parsed(op, next)
    ensures next <= |data| && DecodeFrom(data, i) == Prepend([op], DecodeFrom(data, next))
  {
  }

  lemma Regroup(pre: seq<byte>, s: seq<byte>, post: seq<byte>)
    ensures pre + (s + post) == pre + s + post
  {
  }

  lemma {:induction false} DecodePrinted(data: seq<byte>, pre: seq<byte>, ops: seq<Operation>)
    requires InMemory(ops) && data == pre + PrintAll(ops) && |data| <= MAX_LENGTH
    ensures DecodeFrom(data, |pre|) == if EndsInPlaceOrder(ops) then InvalidFormat else Decoded(NormalAll(ops))
    decreases |ops|
  {
    if ops != [] {
      var op, rest := ops[0], ops[1..];
      var s, post := FirstAndRest(ops);
      Regroup(pre, s, post);
      ReadsAt(data, pre, s, post, op);
      if rest != [] || !op.PlaceOrder? {
        DecodeParsed(data, |pre|, Normal(op), |pre + s|);
        DecodePrinted(data, pre + s, rest);
      } else {
        DecodeMalformed(data, |pre|);
      }
    }
  }

  /** The parser gives back what was printed, with zeros read as nothing, exactly when
      the list does not end in a place order. */
  lemma CodecRoundTrip(ops: seq<Operation>)
    requires InMemory(ops) && |PrintAll(ops)| <= MAX_LENGTH
    ensures DecodeFrom(PrintAll(ops), 0).Decoded? <==> !EndsInPlaceOrder(ops)
    ensures !EndsInPlaceOrder(ops) ==> DecodeFrom(PrintAll(ops), 0) == Decoded(NormalAll(ops))
    ensures EndsInPlaceOrder(ops) ==> DecodeFrom(PrintAll(ops), 0) == InvalidFormat
  {
    assert [] + PrintAll(ops) == PrintAll(ops);
    DecodePrinted(PrintAll(ops), [], ops);
  }

  /** No order that expires at 0, and no cancellation for market 0. */
  predicate NamesNoZero(ops: seq<Operation>) {
    forall i :: 0 <= i < |ops| ==>
      && (ops[i].PlaceOrder? ==> ops[i].expiresAt != Some(0))
      && (ops[i].CancelAll? ==> ops[i].only != Some(0))
  }

  predicate NamesZero(op: Operation) {
    (op.PlaceOrder? && op.expiresAt == Some(0)) || op == CancelAll(Some(0))
  }

  /** Only what names a zero is changed. */
  lemma {:induction false} OnlyZerosChange(ops: seq<Operation>, i: nat)
    requires i < |ops|
    ensures NormalAll(ops)[i] ==
            if !NamesZero(ops[i]) then ops[i]
            else if ops[i].PlaceOrder? then ops[i].(expiresAt := None) else CancelAll(None)
  {
    assert NormalAll(ops)[i] == Normal(ops[i]);
  }

  lemma NothingChanges(ops: seq<Operation>)
    ensures NormalAll(ops) == ops <==> NamesNoZero(ops)
  {
    forall i | 0 <= i < |ops| ensures NormalAll(ops)[i] == ops[i] <==> !NamesZero(ops[i]) {
      OnlyZerosChange(ops, i);
    }
  }

  /** A list comes back as it was exactly if it names no zero where zero stands for
      nothing, and does not end in a place order. */
  lemma DecodedToItself(ops: seq<Operation>)
    requires InMemory(ops) && |PrintAll(ops)| <= MAX_LENGTH
    ensures DecodeFrom(PrintAll(ops), 0) == Decoded(ops) <==> NamesNoZero(ops) && !EndsInPlaceOrder(ops)
  {
    CodecRoundTrip(ops);
    NothingChanges(ops);
  }

  /** Where zero is named, nothing comes back, and every other part of the list is kept. */
  lemma ZeroComesBackAsNothing(ops: seq<Operation>)
    requires InMemory(ops) && |PrintAll(ops)| <= MAX_LENGTH && !EndsInPlaceOrder(ops)
    ensures
      var r := DecodeFrom(PrintAll(ops), 0);
      && r.Decoded? && |r.ops| == |ops|
      && forall i :: 0 <= i < |ops| ==>
           r.ops[i] ==
           if !NamesZero(ops[i]) then ops[i]
           else if ops[i].PlaceOrder? then ops[i].(expiresAt := None) else CancelAll(None)
  {
    CodecRoundTrip(ops);
    forall i | 0 <= i < |ops|
      ensures NormalAll(ops)[i] == if !NamesZero(ops[i]) then ops[i]
                                   else if ops[i].PlaceOrder? then ops[i].(expiresAt := None) else CancelAll(None)
    {
      OnlyZerosChange(ops, i);
    }
  }

  /** So different lists are told apart, up to zeros. */
  lemma PrintIsInjective(p: seq<Operation>, q: seq<Operation>)
    requires InMemory(p) && InMemory(q) && |PrintAll(p)| <= MAX_LENGTH
    requires !EndsInPlaceOrder(p) && PrintAll(p) == PrintAll(q)
    ensures NormalAll(p) == NormalAll(q)
    ensures NamesNoZero(p) && NamesNoZero(q) ==> p == q
  {
    CodecRoundTrip(p);
    CodecRoundTrip(q);
    DecodedToItself(p);
    DecodedToItself(q);
  }

  // ---------- The bytes themselves ----------

  /** The most significant byte comes first. */
  lemma {:induction false} BigEndian(s: seq<byte>)
    requires s != []
    ensures FromBytes(s) == s[0] * Pow256(|s| - 1) + FromBytes(s[1..])
  {
    var n := |s| - 1;
    if n > 0 {
      BigEndian(s[..n]);
      assert s[..n][1..] == s[1..][..n - 1] && s[1..][n - 1] == s[n];
      ProductWith256(s[0], Pow256(n - 1));
    }
  }

  lemma ProductWith256(a: nat, p: nat)
    ensures a * (256 * p) == a * p * 256
  {
  }

  /** The number that stands in these bytes. */
  function NumberAt(s: seq<byte>, i: nat, n: nat): nat
    requires i + n <= |s|
  {
    FromBytes(s[i..i + n])
  }

  lemma InMemoryRest(ops: seq<Operation>)
    requires InMemory(ops) && ops != []
    ensures InMemory(ops[1..])
  {
  }

  lemma PrintedAlone(op: Operation)
    requires InMemory([op])
    ensures (op.CancelOrder? ==> |op.orderIds| < TWO_TO_THE_64) && PrintAll([op]) == Print(op)
  {
    assert [op][0] == op && PrintAll([op][1..]) == [];
  }

  /** What comes first is printed first. */
  lemma PrintedFirst(op: Operation, rest: seq<Operation>)
    requires InMemory([op] + rest)
    ensures InMemory([op]) && InMemory(rest) && PrintAll([op] + rest) == PrintAll([op]) + PrintAll(rest)
  {
    PrintedAlone(op);
    assert ([op] + rest)[0] == op && ([op] + rest)[1..] == rest;
    InMemoryRest([op] + rest);
  }

  /** Lists are printed one operation after another. */
  lemma {:induction false} PrintedInOrder(p: seq<Operation>, q: seq<Operation>)
    requires InMemory(p + q)
    ensures InMemory(p) && InMemory(q) && PrintAll(p + q) == PrintAll(p) + PrintAll(q)
  {
    if p == [] {
      assert p + q == q;
    } else {
      var op, rest := p[0], p[1..];
      assert p == [op] + rest && p + q == [op] + (rest + q);
      PrintedFirst(op, rest + q);
      PrintedInOrder(rest, q);
      InMemoryFirst(op, rest);
      PrintedFirst(op, rest);
      Regroup(PrintAll([op]), PrintAll(rest), PrintAll(q));
    }
  }

  lemma InMemoryFirst(op: Operation, rest: seq<Operation>)
    requires InMemory([op]) && InMemory(rest)
    ensures InMemory([op] + rest)
  {
    assert [op][0] == op;
  }

  /** A place order in 86 bytes, field by field. */
  lemma PlaceOrderLayout(op: Operation)
    requires op.PlaceOrder?
    ensures
      var s := Print(op);
      && |s| == 86 && s[0] == 0
      && NumberAt(s, 1, 8) == op.market
      && s[9] == (match op.orderType case Limit => 0 case Market => 1 case StopLimit => 2 case StopMarket => 3)
      && s[10] == (match op.side case Long => 0 case Short => 1)
      && NumberAt(s, 11, 32) == op.price && NumberAt(s, 43, 32) == op.size
      && s[75] == op.leverage && s[76] == (if op.postOnly then 1 else 0) && s[77] == (if op.reduceOnly then 1 else 0)
      && NumberAt(s, 78, 8) == (if op.expiresAt.Some? then op.expiresAt.value else 0)
  {
    PlaceOrderPrinted(op);
    WordSizes();
    BytesRoundTrip(op.market, 8);
    BytesRoundTrip(op.price, 32);
    BytesRoundTrip(op.size, 32);
    BytesRoundTrip(OrZero(op.expiresAt), 8);
  }

  lemma {:induction false} IdsLayout(ids: seq<u64>, k: nat)
    requires k < |ids|
    ensures NumberAt(PrintIds(ids), 8 * k, 8) == ids[k]
  {
    var n := |ids| - 1;
    PrintIdsLast(ids, n);
    WordSizes();
    if k == n {
      BytesRoundTrip(ids[n], 8);
      assert PrintIds(ids)[8 * n..8 * n + 8] == Print64(ids[n]);
    } else {
      IdsLayout(ids[..n], k);
      assert PrintIds(ids)[8 * k..8 * k + 8] == PrintIds(ids[..n])[8 * k..8 * k + 8];
    }
  }

  /** A number inside a stretch of bytes, wherever that stands. */
  lemma NumberInside(s: seq<byte>, i: nat, part: seq<byte>, j: nat, n: nat)
    requires i + |part| <= |s| && s[i..i + |part|] == part && j + n <= |part|
    ensures NumberAt(s, i + j, n) == NumberAt(part, j, n)
  {
    assert forall x :: 0 <= x < |part| ==> part[x] == s[i + x];
    assert s[i + j..i + j + n] == part[j..j + n];
  }

  /** A cancellation: the market, how many identifiers there are, and the identifiers. */
  lemma CancelOrderLayout(op: Operation, k: nat)
    requires op.CancelOrder? && |op.orderIds| < TWO_TO_THE_64
    ensures
      var s := Print(op);
      && |s| == 17 + 8 * |op.orderIds| && s[0] == 1
      && NumberAt(s, 1, 8) == op.market && NumberAt(s, 9, 8) == |op.orderIds|
      && (k < |op.orderIds| ==> NumberAt(s, 17 + 8 * k, 8) == op.orderIds[k])
  {
    CancelOrderPrinted(op);
    CountsRoundTrip(op);
    if k < |op.orderIds| {
      IdsLayout(op.orderIds, k);
      NumberInside(Print(op), 17, PrintIds(op.orderIds), 8 * k, 8);
    }
  }

  lemma CountsRoundTrip(op: Operation)
    requires op.CancelOrder? && |op.orderIds| < TWO_TO_THE_64
    ensures FromBytes(Print64(op.market)) == op.market && FromBytes(Print64(|op.orderIds|)) == |op.orderIds|
  {
    WordSizes();
    BytesRoundTrip(op.market, 8);
    BytesRoundTrip(|op.orderIds|, 8);
  }

  lemma OtherLayouts(op: Operation)
    requires !op.PlaceOrder? && !op.CancelOrder?
    ensures
      var s := Print(op);
      match op
      case CancelAll(only) => |s| == 9 && s[0] == 2 && NumberAt(s, 1, 8) == (if only.Some? then only.value else 0)
      case SetLeverage(market, leverage) => |s| == 10 && s[0] == 3 && NumberAt(s, 1, 8) == market && s[9] == leverage
      case AdjustMargin(market, amount) => |s| == 41 && s[0] == 4 && NumberAt(s, 1, 8) == market && NumberAt(s, 9, 32) == amount
  {
    OtherPrinted(op);
    WordSizes();
    match op {
      case CancelAll(only) => BytesRoundTrip(OrZero(only), 8);
      case SetLeverage(market, _) => BytesRoundTrip(market, 8);
      case AdjustMargin(market, amount) =>
        BytesRoundTrip(market, 8);
        BytesRoundTrip(amount, 32);
    }
  }

  // ---------- Any bytes at all ----------

  /** An operation of an unknown kind is malformed, and so is a list that meets it. */
  lemma UnknownKindIsRejected(data: seq<byte>, i: nat)
    requires i < |data| <= MAX_LENGTH && data[i] > 4
    ensures OperationAt(data, i) == Malformed && DecodeFrom(data, i) == InvalidFormat
  {
  }

  /** Whatever the bytes, a place order is read exactly if 90 are left and the order type is
      known; any byte but zero stands for short, or for true. */
  lemma PlaceOrderOnAnyBytes(data: seq<byte>, i: nat)
    requires i < |data| <= MAX_LENGTH && data[i] == 0
    ensures
      var r := OperationAt(data, i);
      && (i + 90 > |data| || data[i + 9] > 3 ==> r == Malformed && DecodeFrom(data, i) == InvalidFormat)
      && (i + 90 <= |data| && data[i + 9] <= 3 ==>
            && r.Parsed? && r.op.PlaceOrder? && r.next == i + 86
            && r.op.market == NumberAt(data, i + 1, 8)
            && (r.op.orderType == Limit <==> data[i + 9] == 0) && (r.op.orderType == Market <==> data[i + 9] == 1)
            && (r.op.orderType == StopLimit <==> data[i + 9] == 2) && (r.op.orderType == StopMarket <==> data[i + 9] == 3)
            && (r.op.side == Short <==> data[i + 10] != 0)
            && r.op.price == NumberAt(data, i + 11, 32) && r.op.size == NumberAt(data, i + 43, 32)
            && r.op.leverage == data[i + 75]
            && (r.op.postOnly <==> data[i + 76] != 0) && (r.op.reduceOnly <==> data[i + 77] != 0)
            && (r.op.expiresAt.None? <==> NumberAt(data, i + 78, 8) == 0)
            && (r.op.expiresAt.Some? ==> r.op.expiresAt.value == NumberAt(data, i + 78, 8)))
  {
  }

  /** Whatever the bytes, a cancellation is read exactly if all the identifiers it announces
      are there, although the check wraps around; and where it is fooled there are so many
      that no list could hold them. */
  lemma CancelOrderOnAnyBytes(data: seq<byte>, i: nat)
    requires i < |data| <= MAX_LENGTH && data[i] == 1
    ensures i + 17 > |data| ==> OperationAt(data, i) == Malformed
    ensures i + 17 <= |data| ==>
      var r, count := OperationAt(data, i), NumberAt(data, i + 9, 8);
      && (r.Parsed? <==> i + 17 + 8 * count <= |data|)
      && (r.OutOfCapacity? <==> 8 * count > MAX_LENGTH && (i + 17 + 8 * count) % TWO_TO_THE_64 <= |data|)
      && (r.OutOfCapacity? ==> DecodeFrom(data, i) == CapacityOverflow)
      && (r.Parsed? ==>
            && r.op.CancelOrder? && r.next == i + 17 + 8 * count
            && r.op.market == NumberAt(data, i + 1, 8) && |r.op.orderIds| == count
            && forall k :: 0 <= k < count ==> r.op.orderIds[k] == NumberAt(data, i + 17 + 8 * k, 8))
  {
    if i + 17 <= |data| {
      CountDecides(data, i + 1);
      var count := NumberAt(data, i + 9, 8);
      if i + 17 + 8 * count <= |data| {
        forall k | 0 <= k < count ensures IdsAt(data, i + 17, count)[k] == NumberAt(data, i + 17 + 8 * k, 8) {
          IdsOnAnyBytes(data, i + 17, count, k);
        }
      }
    }
  }

  /** The announced number decides. The check lets through what is there, and what is so
      much that the sum wraps around. */
  lemma CountDecides(data: seq<byte>, i: nat)
    requires i + 16 <= |data| <= MAX_LENGTH
    ensures
      var r, count := CancelOrderAt(data, i), NumberAt(data, i + 8, 8);
      && (i + 16 + 8 * count <= |data| ==> r == Parsed(CancelOrder(NumberAt(data, i, 8), IdsAt(data, i + 16, count)), i + 16 + 8 * count))
      && (i + 16 + 8 * count > |data| ==> !r.Parsed?)
      && (r.OutOfCapacity? <==> 8 * count > MAX_LENGTH && (i + 16 + 8 * count) % TWO_TO_THE_64 <= |data|)
  {
    var count := At64(data, i + 8);
    assert count == NumberAt(data, i + 8, 8) && At64(data, i) == NumberAt(data, i, 8);
    WrapsOnce(i + 16, count * 8);
    if count * 8 <= MAX_LENGTH {
      assert Wrap(i + 16 + Wrap(count * 8)) == i + 16 + count * 8;
    }
  }

  lemma WrapsOnce(a: nat, b: nat)
    ensures Wrap(a + Wrap(b)) == (a + b) % TWO_TO_THE_64
  {
    var k, s := b / TWO_TO_THE_64, a + b % TWO_TO_THE_64;
    assert b == k * TWO_TO_THE_64 + b % TWO_TO_THE_64;
    assert s == s / TWO_TO_THE_64 * TWO_TO_THE_64 + s % TWO_TO_THE_64;
    ProductOfSum(TWO_TO_THE_64, k, s / TWO_TO_THE_64);
    RemainderIs(a + b, TWO_TO_THE_64, k + s / TWO_TO_THE_64, s % TWO_TO_THE_64);
  }

  lemma {:induction false} IdsOnAnyBytes(data: seq<byte>, i: nat, count: nat, k: nat)
    requires i + 8 * count <= |data| && k < count
    ensures IdsAt(data, i, count)[k] == NumberAt(data, i + 8 * k, 8)
  {
    if k < count - 1 { IdsOnAnyBytes(data, i, count - 1, k); }
  }

  /** The other three kinds need 8, 9 and 40 bytes after the first and nothing else. */
  lemma OthersOnAnyBytes(data: seq<byte>, i: nat)
    requires i < |data| <= MAX_LENGTH && 2 <= data[i] <= 4
    ensures
      var r, needed := OperationAt(data, i), if data[i] == 2 then 8 else if data[i] == 3 then 9 else 40;
      && (i + 1 + needed > |data| ==> r == Malformed && DecodeFrom(data, i) == InvalidFormat)
      && (i + 1 + needed <= |data| ==>
            && r.Parsed? && r.next == i + 1 + needed
            && var x := NumberAt(data, i + 1, 8);
            && (data[i] == 2 ==> r.op.CancelAll? && (r.op.only.None? <==> x == 0) && (x != 0 ==> r.op.only.value == x))
            && (data[i] == 3 ==> r.op.SetLeverage? && r.op.market == x && r.op.leverage == data[i + 9])
            && (data[i] == 4 ==> r.op.AdjustMargin? && r.op.market == x && r.op.amount == NumberAt(data, i + 9, 32)))
  {
  }

  // ---------- The loops of the code ----------

  method DecodeOperations(data: seq<byte>) returns (r: Decoded)
    requires |data| <= MAX_LENGTH
    ensures r == DecodeFrom(data, 0)
  {
    var ops: seq<Operation>, offset: nat := [], 0;
    while offset < |data|
      invariant offset <= |data|
      invariant DecodeFrom(data, 0) == Prepend(ops, DecodeFrom(data, offset))
      decreases |data| - offset
    {
      var kind := data[offset];
      var parsed;
      ghost var start := offset;
      offset := offset + 1;
      if kind == 0 {
        parsed := DecodePlaceOrder(data, offset);
      } else if kind == 1 {
        parsed := DecodeCancelOrder(data, offset);
      } else if kind == 2 {
        if offset + 8 > |data| {
          return InvalidFormat;
        }
        parsed := Parsed(CancelAll(NonZero(At64(data, offset))), offset + 8);
      } else if kind == 3 {
        if offset + 9 > |data| {
          return InvalidFormat;
        }
        parsed := Parsed(SetLeverage(At64(data, offset), data[offset + 8]), offset + 9);
      } else if kind == 4 {
        if offset + 40 > |data| {
          return InvalidFormat;
        }
        parsed := Parsed(AdjustMargin(At64(data, offset), At256(data, offset + 8)), offset + 40);
      } else {
        return InvalidFormat;
      }
      assert parsed == OperationAt(data, start);
      match parsed {
        case Malformed => return InvalidFormat;
        case OutOfCapacity => return CapacityOverflow;
        case Parsed(op, next) =>
          PrependTwice(ops, op, DecodeFrom(data, next));
          ops := ops + [op];
          offset := next;
      }
    }
    return Decoded(ops);
  }

  lemma PrependTwice(ops: seq<Operation>, op: Operation, rest: Decoded)
    ensures Prepend(ops, Prepend([op], rest)) == Prepend(ops + [op], rest)
  {
    if rest.Decoded? { assert ops + ([op] + rest.ops) == (ops + [op]) + rest.ops; }
  }

  method DecodePlaceOrder(data: seq<byte>, start: nat) returns (r: Parsed)
    requires start <= |data|
    ensures r == PlaceOrderAt(data, start)
  {
    var offset := start;
    if offset + 89 > |data| {
      return Malformed;
    }
    var market := At64(data, offset);
    offset := offset + 8;
    var orderType := OrderTypeOf(data[offset]);
    offset := offset + 1;
    if orderType.None? {
      return Malformed;
    }
    var side := if data[offset] == 0 then Long else Short;
    offset := offset + 1;
    var price := At256(data, offset);
    offset := offset + 32;
    var size := At256(data, offset);
    offset := offset + 32;
    var leverage := data[offset];
    offset := offset + 1;
    var postOnly := data[offset] != 0;
    offset := offset + 1;
    var reduceOnly := data[offset] != 0;
    offset := offset + 1;
    var expiresAt := NonZero(At64(data, offset));
    offset := offset + 8;
    return Parsed(PlaceOrder(market, orderType.value, side, price, size, leverage, postOnly, reduceOnly, expiresAt), offset);
  }

  method DecodeCancelOrder(data: seq<byte>, start: nat) returns (r: Parsed)
    requires start <= |data| <= MAX_LENGTH
    ensures r == CancelOrderAt(data, start)
  {
    if start + 16 > |data| {
      return Malformed;
    }
    var market, count := At64(data, start), At64(data, start + 8);
    var offset := start + 16;
    if Wrap(offset + Wrap(count * 8)) > |data| {
      return Malformed;
    }
    if count * 8 > MAX_LENGTH {
      return OutOfCapacity;
    }
    var ids: seq<u64> := [];
    for k := 0 to count
      invariant offset == start + 16 + 8 * k && ids == IdsAt(data, start + 16, k)
    {
      ids := ids + [At64(data, offset)];
      offset := offset + 8;
    }
    return Parsed(CancelOrder(market, ids), offset);
  }

  method EncodeOperation(op: Operation) returns (data: seq<byte>)
    requires op.CancelOrder? ==> |op.orderIds| < TWO_TO_THE_64
    ensures data == Print(op)
  {
    match op {
      case PlaceOrder(market, orderType, side, price, size, leverage, postOnly, reduceOnly, expiresAt) =>
        data := [0];
        data := data + Print64(market);
        data := data + [OrderTypeByte(orderType)];
        data := data + [if side == Long then 0 else 1];
        data := data + Print256(price);
        data := data + Print256(size);
        data := data + [leverage];
        data := data + [if postOnly then 1 else 0];
        data := data + [if reduceOnly then 1 else 0];
        data := data + Print64(OrZero(expiresAt));
      case CancelOrder(market, ids) =>
        data := [1] + Print64(market) + Print64(|ids|);
        ghost var header := data;
        for k := 0 to |ids|
          invariant data == header + PrintIds(ids[..k])
        {
          assert ids[..k + 1][..k] == ids[..k];
          data := data + Print64(ids[k]);
        }
        assert ids[..|ids|] == ids;
      case CancelAll(only) =>
        data := [2] + Print64(OrZero(only));
      case SetLeverage(market, leverage) =>
        data := [3] + Print64(market) + [leverage];
      case AdjustMargin(market, amount) =>
        data := [4] + Print64(market) + Print256(amount);
    }
  }

  lemma PrintAllFrom(ops: seq<Operation>, i: nat)
    requires InMemory(ops) && i < |ops|
    ensures InMemory(ops[i..]) && InMemory(ops[i + 1..]) && (ops[i].CancelOrder? ==> |ops[i].orderIds| < TWO_TO_THE_64)
    ensures PrintAll(ops[i..]) == Print(ops[i]) + PrintAll(ops[i + 1..])
  {
    assert ops[i..][0] == ops[i] && ops[i..][1..] == ops[i + 1..];
  }

  method EncodeOperations(ops: seq<Operation>) returns (data: seq<byte>)
    requires InMemory(ops)
    ensures data == PrintAll(ops)
  {
    data := [];
    for i := 0 to |ops|
      invariant InMemory(ops[i..]) && PrintAll(ops) == data + PrintAll(ops[i..])
    {
      PrintAllFrom(ops, i);
      var printed := EncodeOperation(ops[i]);
      Regroup(data, printed, PrintAll(ops[i + 1..]));
      data := data + printed;
    }
  }

  /** Operations come in the order of their bytes, and the first error ends the list. */
  lemma DecodedInOrder(data: seq<byte>, i: nat, op: Operation, next: nat, rest: Decoded)
    requires i < |data| <= MAX_LENGTH && OperationAt(data, i) == Parsed(op, next)
    requires rest == DecodeFrom(data, next)
    ensures rest.Decoded? ==> DecodeFrom(data, i) == Decoded([op] + rest.ops)
    ensures !rest.Decoded? ==> DecodeFrom(data, i) == rest
  {
  }

  // ---------- Whole transactions ----------

  datatype PerpDexTx = PerpDexTx(user: seq<byte>, nonce: u64, gasLimit: u64, gasPrice: U256, operations: seq<Operation>)

  datatype TxResult = TxDecoded(tx: PerpDexTx) | InvalidLength | InvalidTx(why: Decoded)

  /** The gas price is cut to its low eight bytes. */
  function PrintTx(tx: PerpDexTx): seq<byte>
    requires InMemory(tx.operations) && |tx.user| == 20
  {
    tx.user + Print64(tx.nonce) + Print64(tx.gasLimit) + Print256(tx.gasPrice)[24..32] + PrintAll(tx.operations)
  }

  /** The gas price comes from the transaction that carries the bytes. */
  function DecodeTx(input: seq<byte>, maxFeePerGas: U256): TxResult
    requires |input| <= MAX_LENGTH
  {
    if |input| < 44 then InvalidLength
    else
      var decoded := DecodeFrom(input[44..], 0);
      if decoded.Decoded? then
        TxDecoded(PerpDexTx(input[0..20], At64(input, 20), At64(input, 28), maxFeePerGas, decoded.ops))
      else InvalidTx(decoded)
  }

  /** Whatever the bytes: 44 have to be there, the rest has to be a list of operations, and
      the reason is passed on if it is not. */
  lemma TxOnAnyBytes(input: seq<byte>, maxFeePerGas: U256)
    requires |input| <= MAX_LENGTH
    ensures
      var r := DecodeTx(input, maxFeePerGas);
      && (r.InvalidLength? <==> |input| < 44)
      && (|input| >= 44 ==>
            var decoded := DecodeFrom(input[44..], 0);
            && (decoded.Decoded? ==>
                  && r.TxDecoded? && r.tx.operations == decoded.ops
                  && r.tx.user == input[..20] && r.tx.nonce == NumberAt(input, 20, 8) && r.tx.gasLimit == NumberAt(input, 28, 8)
                  && r.tx.gasPrice == maxFeePerGas)
            && (!decoded.Decoded? ==> r == InvalidTx(decoded)))
  {
  }

  /** The 44 bytes in front of the operations. */
  lemma TxLayout(tx: PerpDexTx)
    requires InMemory(tx.operations) && |tx.user| == 20
    ensures
      var s := PrintTx(tx);
      && |s| == 44 + |PrintAll(tx.operations)| && s[..20] == tx.user && s[44..] == PrintAll(tx.operations)
      && NumberAt(s, 20, 8) == tx.nonce && NumberAt(s, 28, 8) == tx.gasLimit
      && NumberAt(s, 36, 8) == tx.gasPrice % TWO_TO_THE_64
  {
    WordSizes();
    BytesRoundTrip(tx.nonce, 8);
    BytesRoundTrip(tx.gasLimit, 8);
    LowBytes(tx.gasPrice, 32, 8);
    assert Print256(tx.gasPrice)[24..32] == Print256(tx.gasPrice)[24..];
    FivePieces(tx.user, Print64(tx.nonce), Print64(tx.gasLimit), Print256(tx.gasPrice)[24..32], PrintAll(tx.operations));
  }

  lemma FivePieces(user: seq<byte>, nonce: seq<byte>, limit: seq<byte>, price: seq<byte>, rest: seq<byte>)
    requires |user| == 20 && |nonce| == |limit| == |price| == 8
    ensures
      var s := user + nonce + limit + price + rest;
      && |s| == 44 + |rest| && s[..20] == user && s[20..28] == nonce && s[28..36] == limit && s[36..44] == price && s[44..] == rest
  {
  }

  /** The last bytes of a number are the number cut to them. */
  lemma {:induction false} LowBytes(x: nat, n: nat, m: nat)
    requires m <= n
    ensures FromBytes(ToBytes(x, n)[n - m..]) == x % Pow256(m)
  {
    if m > 0 {
      LowBytes(x / 256, n - 1, m - 1);
      assert ToBytes(x, n)[n - m..][..m - 1] == ToBytes(x / 256, n - 1)[n - m..];
      LastByte(x, Pow256(m - 1));
    }
  }

  lemma LastByte(x: nat, p: nat)
    requires p > 0
    ensures x % (256 * p) == x / 256 % p * 256 + x % 256
  {
    var q, r := x / 256, x % 256;
    assert x == 256 * q + r;
    var k, l := q / p, q % p;
    assert q == k * p + l;
    assert x == k * (256 * p) + (256 * l + r);
    assert 256 * l + 256 <= 256 * p;
    RemainderIs(x, 256 * p, k, 256 * l + r);
  }

  lemma RemainderIs(x: nat, d: nat, k: nat, r: nat)
    requires x == k * d + r && r < d
    ensures x % d == r
  {
    var q := x / d;
    assert x == q * d + x % d;
    assert (k - q) * d == k * d - q * d && (q - k) * d == q * d - k * d;
    if k > q {
      ProductGrows(1, k - q, d);
      assert false;
    } else if k < q {
      ProductGrows(1, q - k, d);
      assert false;
    }
  }

  /** Everything but the gas price survives. */
  lemma TxRoundTrip(tx: PerpDexTx, maxFeePerGas: U256)
    requires InMemory(tx.operations) && |tx.user| == 20 && |PrintTx(tx)| <= MAX_LENGTH
    ensures DecodeTx(PrintTx(tx), maxFeePerGas)
            == if EndsInPlaceOrder(tx.operations) then InvalidTx(InvalidFormat)
               else TxDecoded(tx.(gasPrice := maxFeePerGas, operations := NormalAll(tx.operations)))
    ensures !EndsInPlaceOrder(tx.operations) && NamesNoZero(tx.operations) ==>
              DecodeTx(PrintTx(tx), maxFeePerGas) == TxDecoded(tx.(gasPrice := maxFeePerGas))
  {
    var input := PrintTx(tx);
    assert input[0..20] == tx.user && input[20..28] == Print64(tx.nonce) && input[28..36] == Print64(tx.gasLimit);
    assert input[44..] == PrintAll(tx.operations);
    WordsRoundTrip();
    CodecRoundTrip(tx.operations);
    DecodedToItself(tx.operations);
  }
}

/**
Decoding the protobuf payload of a gRPC submission: which payloads decode, which error the others meet, and what the
decoded payload has to do with the one sent.
 */
module Decode {
  import opened Options
  import opened Types
  import opened Checks
  import opened MerkleLoops
  import opened Ssz

  datatype DataType = HashData | NumberData | AddressData

  datatype ConversionError = IncorrectLength(dataType: DataType, expected: nat, actual: nat) | SszTypes

  datatype Result<+T> = Ok(value: T) | Err(error: ConversionError)
  {
    predicate IsFailure() { Err? }

    function PropagateFailure<U>(): Result<U>
      requires IsFailure()
    {
      Err(error)
    }

    function Extract(): T
      requires !IsFailure()
    {
      value
    }
  }

  // ----- Fixed-length data

  function ToB256(bytes: Bytes): Result<B256> {
    if |bytes| != 32 then Err(IncorrectLength(HashData, 32, |bytes|)) else Ok(bytes)
  }

  function ToAddress(bytes: Bytes): Result<Address> {
    if |bytes| != 20 then Err(IncorrectLength(AddressData, 20, |bytes|)) else Ok(Address(bytes))
  }

  /** The number some bytes stand for, most significant first. */
  function BigEndian(bytes: Bytes): nat {
    if bytes == [] then 0 else 256 * BigEndian(bytes[..|bytes| - 1]) + bytes[|bytes| - 1]
  }

  function ToU256(bytes: Bytes): Result<nat> {
    if |bytes| != 32 then Err(IncorrectLength(NumberData, 32, |bytes|)) else Ok(BigEndian(bytes))
  }

  /** A fixed vector made from bytes is cut or filled with zeros to its length. */
  function Resize(bytes: Bytes, n: nat): Bytes {
    if |bytes| >= n then bytes[..n] else bytes + seq(n - |bytes|, _ => 0)
  }

  /** A list made from bytes is cut to its limit. */
  function Truncate(bytes: Bytes, n: nat): Bytes {
    if |bytes| >= n then bytes[..n] else bytes
  }

  // ----- The wire messages and their decoding

  datatype WireWithdrawal = WireWithdrawal(index: u64, validatorIndex: u64, address: Bytes, amount: u64)

  datatype WirePayload = WirePayload(
    parentHash: Bytes,
    stateRoot: Bytes,
    receiptsRoot: Bytes,
    logsBloom: Bytes,
    prevRandao: Bytes,
    extraData: Bytes,
    baseFeePerGas: Bytes,
    feeRecipient: Bytes,
    blockHash: Bytes,
    transactions: seq<Bytes>,
    withdrawals: seq<WireWithdrawal>,
    blockNumber: u64,
    gasLimit: u64,
    timestamp: u64,
    gasUsed: u64,
    blobGasUsed: u64,
    excessBlobGas: u64)

  const BLOOM_BYTES := 256
  const EXTRA_DATA_BYTES := 32
  const TRANSACTION_BYTES := 1073741824

  /** The validator index is filled from the amount. */
  function DecodeWithdrawal(w: WireWithdrawal): Result<Withdrawal> {
    var address :- ToAddress(w.address);
    Ok(Withdrawal(w.index, w.amount, address, w.amount))
  }

  function DecodeWithdrawals(ws: seq<WireWithdrawal>): Result<seq<Withdrawal>> {
    if ws == [] then Ok([])
    else
      var first :- DecodeWithdrawal(ws[0]);
      var rest :- DecodeWithdrawals(ws[1..]);
      Ok([first] + rest)
  }

  function TruncateAll(transactions: seq<Bytes>): (r: seq<Bytes>)
    ensures |r| == |transactions|
  {
    if transactions == [] then [] else [Truncate(transactions[0], TRANSACTION_BYTES)] + TruncateAll(transactions[1..])
  }

  /** The fields in the order they are converted, so that the first that fails gives the error. */
  function DecodePayload(w: WirePayload): Result<ExecutionPayload> {
    var withdrawals :- DecodeWithdrawals(w.withdrawals);
    var parentHash :- ToB256(w.parentHash);
    var feeRecipient :- ToAddress(w.feeRecipient);
    var stateRoot :- ToB256(w.stateRoot);
    var receiptsRoot :- ToB256(w.receiptsRoot);
    var prevRandao :- ToB256(w.prevRandao);
    var baseFee :- ToU256(w.baseFeePerGas);
    var blockHash :- ToB256(w.blockHash);
    if |w.transactions| > MAX_TRANSACTIONS || |withdrawals| > MAX_WITHDRAWALS then Err(SszTypes)
    else
      Ok(ExecutionPayload(parentHash, feeRecipient, stateRoot, receiptsRoot, Resize(w.logsBloom, BLOOM_BYTES),
                          prevRandao, w.blockNumber, w.gasLimit, w.gasUsed, w.timestamp,
                          Truncate(w.extraData, EXTRA_DATA_BYTES), baseFee, blockHash, TruncateAll(w.transactions),
                          withdrawals, w.blobGasUsed, w.excessBlobGas))
  }

  /** The lengths a payload must have to decode. */
  predicate WellSized(w: WirePayload) {
    && |w.parentHash| == |w.stateRoot| == |w.receiptsRoot| == |w.prevRandao| == |w.baseFeePerGas| == |w.blockHash| == 32
    && |w.feeRecipient| == 20
    && |w.transactions| <= 1048576 && |w.withdrawals| <= 16
    && forall i :: 0 <= i < |w.withdrawals| ==> |w.withdrawals[i].address| == 20
  }

  /** Withdrawals decode exactly when every address has 20 bytes, and then one by one. */
  lemma {:induction false} WithdrawalsDecode(ws: seq<WireWithdrawal>)
    ensures DecodeWithdrawals(ws).Ok? <==> forall i :: 0 <= i < |ws| ==> |ws[i].address| == 20
    ensures DecodeWithdrawals(ws).Ok? ==> |DecodeWithdrawals(ws).value| == |ws|
    ensures DecodeWithdrawals(ws).Ok? ==>
            forall i :: 0 <= i < |ws| ==> Ok(DecodeWithdrawals(ws).value[i]) == DecodeWithdrawal(ws[i])
  {
    if ws != [] {
      WithdrawalsDecode(ws[1..]);
      assert forall i :: 0 < i < |ws| ==> ws[i] == ws[1..][i - 1];
      if forall i :: 0 <= i < |ws| ==> |ws[i].address| == 20 {
        assert forall i :: 0 <= i < |ws| - 1 ==> ws[1..][i] == ws[i + 1];
      }
    }
  }

  /** A payload decodes exactly when it is well sized; bloom, extra data and transactions are never refused. */
  lemma DecodesExactly(w: WirePayload)
    ensures DecodePayload(w).Ok? <==> WellSized(w)
  {
    WithdrawalsDecode(w.withdrawals);
  }

  // ----- Which error is returned

  function ErrorOf<T>(result: Result<T>): Option<ConversionError> {
    if result.Ok? then None else Some(result.error)
  }

  function LengthCheck(dataType: DataType, bytes: Bytes, expected: nat): Check<Option<ConversionError>> {
    Check(|bytes| == expected, Some(IncorrectLength(dataType, expected, |bytes|)))
  }

  function AddressChecks(ws: seq<WireWithdrawal>): seq<Check<Option<ConversionError>>> {
    if ws == [] then [] else [LengthCheck(AddressData, ws[0].address, 20)] + AddressChecks(ws[1..])
  }

  function FieldChecks(w: WirePayload): seq<Check<Option<ConversionError>>> {
    [LengthCheck(HashData, w.parentHash, 32),
     LengthCheck(AddressData, w.feeRecipient, 20),
     LengthCheck(HashData, w.stateRoot, 32),
     LengthCheck(HashData, w.receiptsRoot, 32),
     LengthCheck(HashData, w.prevRandao, 32),
     LengthCheck(NumberData, w.baseFeePerGas, 32),
     LengthCheck(HashData, w.blockHash, 32),
     Check(|w.transactions| <= 1048576 && |w.withdrawals| <= 16, Some(SszTypes))]
  }

  lemma {:induction false} AddressesDecided(ws: seq<WireWithdrawal>)
    ensures Decides(AddressChecks(ws), None, ErrorOf(DecodeWithdrawals(ws)))
    ensures AllHold(AddressChecks(ws)) <==> DecodeWithdrawals(ws).Ok?
  {
    if ws != [] {
      var first := LengthCheck(AddressData, ws[0].address, 20);
      AddressesDecided(ws[1..]);
      OneDecides(first, None, ErrorOf(DecodeWithdrawal(ws[0])));
      ThenDecides([first], AddressChecks(ws[1..]), None, ErrorOf(DecodeWithdrawals(ws)));
    }
  }

  lemma FieldsDecided(w: WirePayload)
    requires DecodeWithdrawals(w.withdrawals).Ok?
    ensures Decides(FieldChecks(w), None, ErrorOf(DecodePayload(w)))
  {
    var checks := FieldChecks(w);
    WithdrawalsDecode(w.withdrawals);
    if |w.parentHash| != 32 {
      assert FailsAt(checks, 0);
    } else if |w.feeRecipient| != 20 {
      assert FailsAt(checks, 1);
    } else if |w.stateRoot| != 32 {
      assert FailsAt(checks, 2);
    } else if |w.receiptsRoot| != 32 {
      assert FailsAt(checks, 3);
    } else if |w.prevRandao| != 32 {
      assert FailsAt(checks, 4);
    } else if |w.baseFeePerGas| != 32 {
      assert FailsAt(checks, 5);
    } else if |w.blockHash| != 32 {
      assert FailsAt(checks, 6);
    } else if !checks[7].holds {
      assert FailsAt(checks, 7);
    }
  }

  /** The first wrong length decides the error: the withdrawals' addresses, then the fields, the list bounds last. */
  lemma ErrorsDecided(w: WirePayload)
    ensures Decides(AddressChecks(w.withdrawals) + FieldChecks(w), None, ErrorOf(DecodePayload(w)))
  {
    AddressesDecided(w.withdrawals);
    if DecodeWithdrawals(w.withdrawals).Ok? {
      FieldsDecided(w);
    }
    ThenDecides(AddressChecks(w.withdrawals), FieldChecks(w), None, ErrorOf(DecodePayload(w)));
  }

  // ----- Sending and decoding a payload

  function Reverse(bytes: Bytes): (r: Bytes)
    ensures |r| == |bytes|
  {
    if bytes == [] then [] else Reverse(bytes[1..]) + [bytes[0]]
  }

  function Pow256(n: nat): (p: nat)
    ensures p >= 1
  {
    if n == 0 then 1 else 256 * Pow256(n - 1)
  }

  /** The 32 bytes of a number, most significant first. */
  function ToBigEndian(x: nat): Bytes {
    Reverse(LittleEndian(x, 32))
  }

  /** Big-endian decoding inverts the reversed little-endian encoding. */
  lemma {:induction false} BigEndianInverts(x: nat, width: nat)
    requires x < Pow256(width)
    ensures BigEndian(Reverse(LittleEndian(x, width))) == x
    decreases width
  {
    if width > 0 {
      var rest := LittleEndian(x / 256, width - 1);
      BigEndianInverts(x / 256, width - 1);
      assert LittleEndian(x, width)[1..] == rest;
      assert (Reverse(rest) + [x % 256])[..width - 1] == Reverse(rest);
    }
  }

  /** Decoding 32 big-endian bytes and encoding the number little-endian reverses the bytes. */
  lemma {:induction false} LittleEndianReverses(bytes: Bytes)
    ensures LittleEndian(BigEndian(bytes), |bytes|) == Reverse(bytes)
  {
    if bytes != [] {
      var n := |bytes| - 1;
      LittleEndianReverses(bytes[..n]);
      ReverseSnoc(bytes[..n], bytes[n]);
      assert bytes == bytes[..n] + [bytes[n]];
      assert BigEndian(bytes) / 256 == BigEndian(bytes[..n]) && BigEndian(bytes) % 256 == bytes[n];
    }
  }

  lemma {:induction false} ReverseSnoc(bytes: Bytes, last: byte)
    ensures Reverse(bytes + [last]) == [last] + Reverse(bytes)
  {
    if bytes != [] {
      ReverseSnoc(bytes[1..], last);
      assert (bytes + [last])[1..] == bytes[1..] + [last];
    }
  }

  function WireWithdrawals(ws: seq<Withdrawal>): seq<WireWithdrawal> {
    if ws == [] then []
    else
      var w := ws[0];
      [WireWithdrawal(w.index, w.validatorIndex, w.address.bytes, w.amount)] + WireWithdrawals(ws[1..])
  }

  /** The message a builder sends for a payload, every field filled from its own. */
  function ToWire(p: ExecutionPayload): WirePayload {
    WirePayload(p.parentHash, p.stateRoot, p.receiptsRoot, p.logsBloom, p.prevRandao, p.extraData,
                ToBigEndian(p.baseFeePerGas), p.feeRecipient.bytes, p.blockHash, p.transactions,
                WireWithdrawals(p.withdrawals), p.blockNumber, p.gasLimit, p.timestamp, p.gasUsed,
                p.blobGasUsed, p.excessBlobGas)
  }

  /** The bounds that the types of the payload's fields impose. */
  predicate WellTyped(p: ExecutionPayload) {
    && |p.feeRecipient.bytes| == 20 && |p.logsBloom| == 256 && |p.extraData| <= 32
    && p.baseFeePerGas < Pow256(32)
    && |p.transactions| <= 1048576 && |p.withdrawals| <= 16
    && (forall i :: 0 <= i < |p.transactions| ==> |p.transactions[i]| <= 1073741824)
    && forall i :: 0 <= i < |p.withdrawals| ==> |p.withdrawals[i].address.bytes| == 20
  }

  /** Withdrawals with every validator index replaced by the amount. */
  function Misindexed(ws: seq<Withdrawal>): (r: seq<Withdrawal>)
    ensures |r| == |ws|
  {
    if ws == [] then [] else [ws[0].(validatorIndex := ws[0].amount)] + Misindexed(ws[1..])
  }

  predicate IndexIsAmount(ws: seq<Withdrawal>) {
    forall i :: 0 <= i < |ws| ==> ws[i].validatorIndex == ws[i].amount
  }

  lemma {:induction false} MisindexedIsSame(ws: seq<Withdrawal>)
    ensures Misindexed(ws) == ws <==> IndexIsAmount(ws)
  {
    if ws != [] {
      MisindexedIsSame(ws[1..]);
      assert ws == [ws[0]] + ws[1..];
      assert Misindexed(ws)[1..] == Misindexed(ws[1..]) && Misindexed(ws)[0] == ws[0].(validatorIndex := ws[0].amount);
      assert forall i :: 0 < i < |ws| ==> ws[i] == ws[1..][i - 1];
      assert IndexIsAmount(ws) ==> forall i :: 0 <= i < |ws| - 1 ==> ws[1..][i] == ws[i + 1];
    }
  }

  lemma {:induction false} SentWithdrawalsDecode(ws: seq<Withdrawal>)
    requires forall i :: 0 <= i < |ws| ==> |ws[i].address.bytes| == 20
    ensures DecodeWithdrawals(WireWithdrawals(ws)) == Ok(Misindexed(ws))
  {
    if ws != [] {
      SentWithdrawalsDecode(ws[1..]);
      assert WireWithdrawals(ws)[1..] == WireWithdrawals(ws[1..]);
    }
  }

  lemma {:induction false} TruncateKeeps(transactions: seq<Bytes>)
    requires forall i :: 0 <= i < |transactions| ==> |transactions[i]| <= TRANSACTION_BYTES
    ensures TruncateAll(transactions) == transactions
  {
    if transactions != [] {
      TruncateKeeps(transactions[1..]);
      assert transactions == [transactions[0]] + transactions[1..];
      assert Truncate(transactions[0], TRANSACTION_BYTES) == transactions[0];
    }
  }

  /** What a well-sized payload decodes to. */
  lemma WellSizedDecodes(w: WirePayload)
    requires WellSized(w)
    ensures DecodeWithdrawals(w.withdrawals).Ok?
    ensures DecodePayload(w)
         == Ok(ExecutionPayload(w.parentHash, Address(w.feeRecipient), w.stateRoot, w.receiptsRoot,
                                Resize(w.logsBloom, BLOOM_BYTES), w.prevRandao, w.blockNumber, w.gasLimit, w.gasUsed,
                                w.timestamp, Truncate(w.extraData, EXTRA_DATA_BYTES), BigEndian(w.baseFeePerGas),
                                w.blockHash, TruncateAll(w.transactions), DecodeWithdrawals(w.withdrawals).value,
                                w.blobGasUsed, w.excessBlobGas))
  {
    WithdrawalsDecode(w.withdrawals);
  }

  lemma SentIsWellSized(p: ExecutionPayload)
    requires WellTyped(p)
    ensures WellSized(ToWire(p)) && DecodeWithdrawals(ToWire(p).withdrawals) == Ok(Misindexed(p.withdrawals))
  {
    SentWithdrawalsDecode(p.withdrawals);
    WithdrawalsDecode(WireWithdrawals(p.withdrawals));
  }

  lemma BytesDecode(p: ExecutionPayload)
    requires WellTyped(p)
    ensures BigEndian(ToBigEndian(p.baseFeePerGas)) == p.baseFeePerGas
    ensures TruncateAll(p.transactions) == p.transactions
    ensures Resize(p.logsBloom, BLOOM_BYTES) == p.logsBloom
    ensures Truncate(p.extraData, EXTRA_DATA_BYTES) == p.extraData
  {
    BigEndianInverts(p.baseFeePerGas, 32);
    TruncateKeeps(p.transactions);
  }

  lemma SentPayloadDecodes(p: ExecutionPayload)
    requires WellTyped(p)
    ensures DecodePayload(ToWire(p)) == Ok(p.(withdrawals := Misindexed(p.withdrawals)))
  {
    SentIsWellSized(p);
    WellSizedDecodes(ToWire(p));
    BytesDecode(p);
  }

  /**
  Every payload a builder can send decodes, to itself with each withdrawal's validator index replaced by its amount; so
  it decodes to itself exactly when every withdrawal's index happens to be its amount.
   */
  lemma RoundTripExactly(p: ExecutionPayload)
    requires WellTyped(p)
    ensures DecodePayload(ToWire(p)) == Ok(p.(withdrawals := Misindexed(p.withdrawals)))
    ensures DecodePayload(ToWire(p)) == Ok(p) <==> IndexIsAmount(p.withdrawals)
  {
    SentPayloadDecodes(p);
    MisindexedIsSame(p.withdrawals);
    var q := p.(withdrawals := Misindexed(p.withdrawals));
    assert q == p <==> q.withdrawals == p.withdrawals;
  }

  /** The smallest payload difference: one withdrawal whose index is not its amount does not survive decoding. */
  lemma OneWithdrawalIsMisindexed()
    ensures var w := Withdrawal(0, 1, Address(seq(20, _ => 0)), 2);
            DecodeWithdrawals(WireWithdrawals([w])) == Ok([w.(validatorIndex := 2)])
  {
    var w := Withdrawal(0, 1, Address(seq(20, _ => 0)), 2);
    SentWithdrawalsDecode([w]);
    assert Misindexed([w]) == [w.(validatorIndex := 2)];
  }

  lemma {:induction false} TruncatedFit(transactions: seq<Bytes>)
    ensures forall i :: 0 <= i < |transactions| ==> |TruncateAll(transactions)[i]| <= 1073741824
  {
    if transactions != [] {
      TruncatedFit(transactions[1..]);
    }
  }

  /** Whatever decodes is within the bounds of its types. */
  lemma DecodedIsWellTyped(w: WirePayload)
    requires DecodePayload(w).Ok?
    ensures WellTyped(DecodePayload(w).value)
  {
    DecodesExactly(w);
    WellSizedDecodes(w);
    WithdrawalsDecode(w.withdrawals);
    TruncatedFit(w.transactions);
    BigEndianFits(w.baseFeePerGas);
  }

  lemma {:induction false} BigEndianFits(bytes: Bytes)
    ensures BigEndian(bytes) < Pow256(|bytes|)
  {
    if bytes != [] {
      BigEndianFits(bytes[..|bytes| - 1]);
    }
  }

  /** The bloom and extra data of a decoded payload, byte by byte: cut at their length, the bloom filled with zeros. */
  lemma DecodedBytes(w: WirePayload)
    requires DecodePayload(w).Ok?
    ensures var p := DecodePayload(w).value;
            && |p.logsBloom| == 256
            && (forall i :: 0 <= i < 256 ==> p.logsBloom[i] == if i < |w.logsBloom| then w.logsBloom[i] else 0)
            && p.extraData == w.extraData[..if |w.extraData| > 32 then 32 else |w.extraData|]
            && BigEndian(w.baseFeePerGas) == p.baseFeePerGas
  {
    DecodesExactly(w);
    WellSizedDecodes(w);
  }
}

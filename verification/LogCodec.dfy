/**
 Logs in binary and in database form (indexer/utils.go: ethToModelLogs; rpc/utils/utils.go:
 DB2EthLogs).

 An address is written with the mixed case of EIP-55.  Which letters are upper case depends on a
 Keccak hash that is not modelled, so the casing is an arbitrary function here.
 */
module LogCodec {
  import opened Model

  type Byte = b: int | 0 <= b < 256

  const HASH_LENGTH: nat := 32
  const ADDRESS_LENGTH: nat := 20

  datatype EthLog = EthLog(address: seq<Byte>, topics: seq<seq<Byte>>, data: seq<Byte>, blockNumber: nat,
                           txHash: seq<Byte>, txIndex: nat, blockHash: seq<Byte>, index: nat, removed: bool)

  predicate IsHash(b: seq<Byte>) { |b| == HASH_LENGTH }

  predicate WellSized(l: EthLog) {
    && |l.address| == ADDRESS_LENGTH && IsHash(l.txHash) && IsHash(l.blockHash)
    && forall i :: 0 <= i < |l.topics| ==> IsHash(l.topics[i])
  }

  // ---------------------------------------------------------------- hexadecimal text

  const LowerDigits := "0123456789abcdef"
  const UpperDigits := "0123456789ABCDEF"

  function DigitOf(n: nat, upper: bool): char
    requires n < 16
  {
    if upper then UpperDigits[n] else LowerDigits[n]
  }

  /** The value of a hexadecimal digit of either case. */
  function ValueOf(c: char): Option<nat> {
    if '0' <= c <= '9' then Some(c as int - '0' as int)
    else if 'a' <= c <= 'f' then Some(c as int - 'a' as int + 10)
    else if 'A' <= c <= 'F' then Some(c as int - 'A' as int + 10)
    else None
  }

  lemma DigitRoundTrip(n: nat, upper: bool)
    requires n < 16
    ensures ValueOf(DigitOf(n, upper)) == Some(n)
  {
  }

  /** Two digits per byte; `upper` chooses the case of the digit at each position. */
  function Encode(b: seq<Byte>, upper: nat -> bool, pos: nat): string {
    if b == [] then ""
    else [DigitOf(b[0] / 16, upper(pos)), DigitOf(b[0] % 16, upper(pos + 1))] + Encode(b[1..], upper, pos + 2)
  }

  /** hex.DecodeString with its error ignored: decodes pairs of digits up to the first bad one. */
  function Decode(s: string): seq<Byte> {
    if |s| < 2 || ValueOf(s[0]).None? || ValueOf(s[1]).None? then []
    else [ValueOf(s[0]).value * 16 + ValueOf(s[1]).value] + Decode(s[2..])
  }

  /** FromHex: an optional prefix, and a leading zero for an odd number of digits. */
  function FromHex(s: string): seq<Byte> {
    var t := if |s| >= 2 && s[0] == '0' && (s[1] == 'x' || s[1] == 'X') then s[2..] else s;
    Decode(if |t| % 2 == 1 then "0" + t else t)
  }

  /** BytesToHash and BytesToAddress: keep the last n bytes, pad on the left. */
  function Fit(b: seq<Byte>, n: nat): (r: seq<Byte>)
    ensures |r| == n
  {
    if |b| > n then b[|b| - n..] else seq(n - |b|, _ => 0) + b
  }

  function Lower(i: nat): bool { false }

  function HashHex(b: seq<Byte>): string { "0x" + Encode(b, Lower, 0) }

  function HexToHash(s: string): seq<Byte> { Fit(FromHex(s), HASH_LENGTH) }

  function AddressHex(b: seq<Byte>, casing: seq<Byte> -> (nat -> bool)): string { "0x" + Encode(b, casing(b), 0) }

  function HexToAddress(s: string): seq<Byte> { Fit(FromHex(s), ADDRESS_LENGTH) }

  lemma {:induction false} EncodeRoundTrip(b: seq<Byte>, upper: nat -> bool, pos: nat)
    ensures |Encode(b, upper, pos)| == 2 * |b|
    ensures Decode(Encode(b, upper, pos)) == b
  {
    if b != [] {
      EncodeRoundTrip(b[1..], upper, pos + 2);
      DigitRoundTrip(b[0] / 16, upper(pos));
      DigitRoundTrip(b[0] % 16, upper(pos + 1));
      var s := Encode(b, upper, pos);
      assert s[2..] == Encode(b[1..], upper, pos + 2);
      assert b == [b[0]] + b[1..];
    }
  }

  lemma EncodeStep(b: seq<Byte>, upper: nat -> bool, pos: nat)
    requires b != []
    ensures
      var s := Encode(b, upper, pos);
      && |s| >= 2 && s[0] == DigitOf(b[0] / 16, upper(pos)) && s[1] == DigitOf(b[0] % 16, upper(pos + 1))
      && s[2..] == Encode(b[1..], upper, pos + 2)
  {
  }

  lemma DropMore<T>(s: seq<T>, m: nat, n: nat)
    requires m + n <= |s|
    ensures s[m..][n..] == s[m + n..]
  {
  }

  /** The text of the bytes from the i-th on begins at place 2i. */
  lemma {:induction false} EncodeDrop(b: seq<Byte>, upper: nat -> bool, pos: nat, i: nat)
    requires i <= |b| && |Encode(b, upper, pos)| == 2 * |b|
    ensures Encode(b, upper, pos)[2 * i..] == Encode(b[i..], upper, pos + 2 * i)
  {
    if i > 0 {
      EncodeDrop(b, upper, pos, i - 1);
      EncodeStep(b[i - 1..], upper, pos + 2 * (i - 1));
      DropMore(b, i - 1, 1);
      DropMore(Encode(b, upper, pos), 2 * (i - 1), 2);
    } else {
      assert b[0..] == b;
    }
  }

  /** Byte i is written at places 2i and 2i + 1, the high digit first, digits above nine as letters. */
  lemma EncodeMeans(b: seq<Byte>, upper: nat -> bool, pos: nat, i: nat)
    requires i < |b|
    ensures
      var s := Encode(b, upper, pos);
      && |s| == 2 * |b|
      && s[2 * i] == (if upper(pos + 2 * i) then "0123456789ABCDEF" else "0123456789abcdef")[b[i] / 16]
      && s[2 * i + 1] == (if upper(pos + 2 * i + 1) then "0123456789ABCDEF" else "0123456789abcdef")[b[i] % 16]
  {
    EncodeRoundTrip(b, upper, pos);
    EncodeDrop(b, upper, pos, i);
    EncodeStep(b[i..], upper, pos + 2 * i);
    var s := Encode(b, upper, pos);
    assert s[2 * i..][0] == s[2 * i] && s[2 * i..][1] == s[2 * i + 1];
  }

  /** A pair of digits at this place. */
  predicate PairAt(s: string, i: nat) {
    2 * i + 1 < |s| && ValueOf(s[2 * i]).Some? && ValueOf(s[2 * i + 1]).Some?
  }

  lemma DecodeStep(s: string)
    requires PairAt(s, 0)
    ensures Decode(s) == [ValueOf(s[0]).value * 16 + ValueOf(s[1]).value] + Decode(s[2..])
    ensures forall i: nat :: PairAt(s[2..], i) <==> PairAt(s, i + 1)
  {
  }

  /** Decoding takes the pairs up to the first place that has none, the high digit first. */
  lemma {:induction false} DecodeMeans(s: string)
    ensures !PairAt(s, |Decode(s)|)
    ensures forall i: nat :: i < |Decode(s)| ==>
              PairAt(s, i) && Decode(s)[i] == ValueOf(s[2 * i]).value * 16 + ValueOf(s[2 * i + 1]).value
  {
    if PairAt(s, 0) {
      var rest := s[2..];
      DecodeMeans(rest);
      DecodeStep(s);
      forall i: nat | i < |Decode(s)|
        ensures PairAt(s, i) && Decode(s)[i] == ValueOf(s[2 * i]).value * 16 + ValueOf(s[2 * i + 1]).value
      {
        if i > 0 {
          assert PairAt(rest, i - 1) && Decode(s)[i] == Decode(rest)[i - 1];
          assert rest[2 * (i - 1)] == s[2 * i] && rest[2 * (i - 1) + 1] == s[2 * i + 1];
        }
      }
    }
  }

  /** The bytes are kept at the right end: what is too long loses bytes on the left, what is too short is
      filled with zeros there. */
  lemma FitMeans(b: seq<Byte>, n: nat, i: nat)
    requires i < n
    ensures Fit(b, n)[n - 1 - i] == if i < |b| then b[|b| - 1 - i] else 0
  {
  }

  /** A prefix does not count, and neither does a zero in front of an odd number of digits. */
  lemma FromHexMeans(s: string)
    requires !(|s| >= 2 && s[0] == '0' && (s[1] == 'x' || s[1] == 'X'))
    ensures FromHex(s) == Decode(if |s| % 2 == 0 then s else "0" + s)
    ensures FromHex("0x" + s) == FromHex(s) && FromHex("0X" + s) == FromHex(s)
  {
    assert ("0x" + s)[2..] == s && ("0X" + s)[2..] == s;
  }

  /** Prefixed text of any casing decodes to the bytes it was made from. */
  lemma PrefixedRoundTrip(b: seq<Byte>, upper: nat -> bool)
    ensures FromHex("0x" + Encode(b, upper, 0)) == b
  {
    EncodeRoundTrip(b, upper, 0);
    var s := "0x" + Encode(b, upper, 0);
    assert s[2..] == Encode(b, upper, 0);
  }

  lemma HashRoundTrip(b: seq<Byte>)
    requires IsHash(b)
    ensures HexToHash(HashHex(b)) == b
  {
    PrefixedRoundTrip(b, Lower);
  }

  lemma AddressRoundTrip(b: seq<Byte>, casing: seq<Byte> -> (nat -> bool))
    requires |b| == ADDRESS_LENGTH
    ensures HexToAddress(AddressHex(b, casing)) == b
  {
    PrefixedRoundTrip(b, casing(b));
  }

  // ---------------------------------------------------------------- one log

  function TopicsHex(topics: seq<seq<Byte>>): (r: seq<string>)
    ensures |r| == |topics|
  {
    seq(|topics|, i requires 0 <= i < |topics| => HashHex(topics[i]))
  }

  function HexToTopics(topics: seq<string>): (r: seq<seq<Byte>>)
    ensures |r| == |topics|
  {
    seq(|topics|, i requires 0 <= i < |topics| => HexToHash(topics[i]))
  }

  function ToModel(l: EthLog, casing: seq<Byte> -> (nat -> bool)): Log {
    Log(Content(AddressHex(l.address, casing), TopicsHex(l.topics), Encode(l.data, Lower, 0)),
        l.blockNumber, HashHex(l.blockHash), HashHex(l.txHash), l.txIndex, l.index, l.removed)
  }

  function FromModel(l: Log): EthLog {
    EthLog(HexToAddress(l.content.address), HexToTopics(l.content.topics), Decode(l.content.data),
           l.round, HexToHash(l.txHash), l.txIndex, HexToHash(l.blockHash), l.index, l.removed)
  }

  lemma LogRoundTrip(l: EthLog, casing: seq<Byte> -> (nat -> bool))
    requires WellSized(l)
    ensures FromModel(ToModel(l, casing)) == l
  {
    AddressRoundTrip(l.address, casing);
    EncodeRoundTrip(l.data, Lower, 0);
    HashRoundTrip(l.txHash);
    HashRoundTrip(l.blockHash);
    forall i | 0 <= i < |l.topics| ensures HexToHash(HashHex(l.topics[i])) == l.topics[i] {
      HashRoundTrip(l.topics[i]);
    }
    assert HexToTopics(TopicsHex(l.topics)) == l.topics;
  }

  // ---------------------------------------------------------------- lists of logs

  function ToModels(logs: seq<EthLog>, casing: seq<Byte> -> (nat -> bool)): (r: seq<Log>)
    ensures |r| == |logs|
  {
    seq(|logs|, i requires 0 <= i < |logs| => ToModel(logs[i], casing))
  }

  function FromModels(logs: seq<Log>): (r: seq<EthLog>)
    ensures |r| == |logs|
  {
    seq(|logs|, i requires 0 <= i < |logs| => FromModel(logs[i]))
  }

  method EthToModelLogs(logs: seq<EthLog>, casing: seq<Byte> -> (nat -> bool)) returns (r: seq<Log>)
    ensures r == ToModels(logs, casing)
  {
    r := [];
    for i := 0 to |logs|
      invariant r == ToModels(logs, casing)[..i]
    {
      var l := logs[i];
      var topics: seq<string> := [];
      for j := 0 to |l.topics|
        invariant topics == TopicsHex(l.topics)[..j]
      {
        topics := topics + [HashHex(l.topics[j])];
      }
      assert topics == TopicsHex(l.topics);
      r := r + [Log(Content(AddressHex(l.address, casing), topics, Encode(l.data, Lower, 0)), l.blockNumber,
                    HashHex(l.blockHash), HashHex(l.txHash), l.txIndex, l.index, l.removed)];
    }
  }

  method DB2EthLogs(logs: seq<Log>) returns (r: seq<EthLog>)
    ensures r == FromModels(logs)
  {
    r := [];
    for i := 0 to |logs|
      invariant r == FromModels(logs)[..i]
    {
      var l := logs[i];
      var topics: seq<seq<Byte>> := [];
      for j := 0 to |l.content.topics|
        invariant topics == HexToTopics(l.content.topics)[..j]
      {
        topics := topics + [HexToHash(l.content.topics[j])];
      }
      assert topics == HexToTopics(l.content.topics);
      r := r + [EthLog(HexToAddress(l.content.address), topics, Decode(l.content.data), l.round, HexToHash(l.txHash),
                       l.txIndex, HexToHash(l.blockHash), l.index, l.removed)];
    }
  }

  /** To the database and back is the identity on every list of logs, whatever the address casing. */
  lemma LogsRoundTrip(logs: seq<EthLog>, casing: seq<Byte> -> (nat -> bool))
    requires forall i :: 0 <= i < |logs| ==> WellSized(logs[i])
    ensures FromModels(ToModels(logs, casing)) == logs
  {
    forall i | 0 <= i < |logs| ensures FromModel(ToModel(logs[i], casing)) == logs[i] {
      LogRoundTrip(logs[i], casing);
    }
  }

  // ---------------------------------------------------------------- the columns

  /** Lower-case hexadecimal text of these bytes. */
  predicate IsHexOf(s: string, b: seq<Byte>) {
    && |s| == 2 * |b|
    && forall i :: 0 <= i < |b| ==>
         s[2 * i] == "0123456789abcdef"[b[i] / 16] && s[2 * i + 1] == "0123456789abcdef"[b[i] % 16]
  }

  /** The same with its prefix. */
  predicate IsPrefixedHexOf(s: string, b: seq<Byte>) {
    |s| >= 2 && s[..2] == "0x" && IsHexOf(s[2..], b)
  }

  lemma LowerMeans(b: seq<Byte>)
    ensures IsHexOf(Encode(b, Lower, 0), b) && IsPrefixedHexOf(HashHex(b), b)
  {
    EncodeRoundTrip(b, Lower, 0);
    forall i | 0 <= i < |b|
      ensures Encode(b, Lower, 0)[2 * i] == "0123456789abcdef"[b[i] / 16]
      ensures Encode(b, Lower, 0)[2 * i + 1] == "0123456789abcdef"[b[i] % 16]
    {
      EncodeMeans(b, Lower, 0, i);
    }
    assert HashHex(b)[2..] == Encode(b, Lower, 0);
  }

  /** What each column of a log row holds. */
  lemma ColumnsMean(l: EthLog, casing: seq<Byte> -> (nat -> bool))
    ensures
      var m := ToModel(l, casing);
      && m.round == l.blockNumber && m.txIndex == l.txIndex && m.index == l.index && m.removed == l.removed
      && IsPrefixedHexOf(m.blockHash, l.blockHash) && IsPrefixedHexOf(m.txHash, l.txHash)
      && IsHexOf(m.content.data, l.data) && |m.content.topics| == |l.topics|
      && (forall i :: 0 <= i < |l.topics| ==> IsPrefixedHexOf(m.content.topics[i], l.topics[i]))
      && FromHex(m.content.address) == l.address
  {
    LowerMeans(l.blockHash);
    LowerMeans(l.txHash);
    LowerMeans(l.data);
    PrefixedRoundTrip(l.address, casing(l.address));
    forall i | 0 <= i < |l.topics| ensures IsPrefixedHexOf(HashHex(l.topics[i]), l.topics[i]) {
      LowerMeans(l.topics[i]);
    }
  }
}

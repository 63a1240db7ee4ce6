/**
 Data model of the gateway (db/model/model.go, indexer/backend.go).

 A transaction row and a receipt row carry the same identifying columns, so both are a `Row`
 with a different body.  `logs` is the relation field of a receipt: it is filled in the values
 that the indexer emits, but it is not a column, so a stored row always has `logs == []`.
 */
module Model {

  datatype Option<+T> = None | Some(value: T)

  type Hash = string

  /** The text columns of a log; LogCodec relates them to the binary form. */
  datatype Content = Content(address: string, topics: seq<string>, data: string)

  datatype Log = Log(content: Content, round: nat, blockHash: Hash, txHash: Hash, txIndex: nat,
                     index: nat, removed: bool)

  datatype Row<T> = Row(hash: Hash, success: bool, round: nat, blockHash: Hash, index: nat,
                        body: T, logs: seq<Log>)

  datatype TxBody = TxBody(gas: nat, gasPrice: nat, gasTipCap: nat, gasFeeCap: nat, fields: string)

  datatype ReceiptBody = ReceiptBody(cumulativeGasUsed: nat, gasUsed: nat, effectiveGasPrice: nat,
                                     contractAddress: string)

  type Tx = Row<TxBody>
  type Receipt = Row<ReceiptBody>

  datatype Header = Header(gasLimit: nat, gasUsed: nat, baseFee: nat)

  /** `transactions` is a relation field too: it is [] in a stored block row. */
  datatype Block = Block(hash: Hash, round: nat, header: Header, transactions: seq<Tx>)

  /** What the indexer hands to its observers after a block has been committed. */
  datatype BlockData = BlockData(block: Block, receipts: seq<Receipt>, uniqueTxes: seq<Tx>,
                                 medianGasPrice: Option<nat>)

  function Lookup<K, V>(m: map<K, V>, k: K): Option<V> {
    if k in m then Some(m[k]) else None
  }

  /** The logs of a list of receipts, receipt by receipt. */
  function Flatten<T>(rows: seq<Row<T>>): seq<Log> {
    if rows == [] then [] else Flatten(rows[..|rows| - 1]) + rows[|rows| - 1].logs
  }

  function Max(a: nat, b: nat): nat { if a < b then b else a }

  function Min(a: nat, b: nat): nat { if a < b then a else b }

  /** The last `n` elements. */
  function Latest<T>(s: seq<T>, n: nat): seq<T> {
    if |s| <= n then s else s[|s| - n..]
  }

  /** The last elements, in their order, and as many as there are but not more than n. */
  lemma LatestMeans<T>(s: seq<T>, n: nat)
    ensures |Latest(s, n)| == Min(|s|, n)
    ensures forall k :: 0 <= k < |Latest(s, n)| ==> Latest(s, n)[k] == s[|s| - |Latest(s, n)| + k]
  {
  }

  /** Bounding after every append is bounding once. */
  lemma LatestStep<T>(s: seq<T>, x: T, n: nat)
    ensures Latest(s + [x], n) == Latest(Latest(s, n) + [x], n)
  {
  }
}

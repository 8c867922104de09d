/** structs.ledger rows and their source-event identity (buffers/buffer.go). */
module LedgerRows {

  datatype Direction = Credit | Debit

  datatype LedgerRow = LedgerRow(
    address: string, counterparty: string, amount: int, height: int, time: int,
    action: string, direction: Direction, denom: string,
    chain: string, tx: int, msg: int, eventIndex: int)

  /** The unique index that makes ledger inserts idempotent. */
  datatype Identity = Identity(time: int, chain: string, tx: int, msg: int, eventIndex: int, denom: string)

  function IdentityOf(r: LedgerRow): Identity {
    Identity(r.time, r.chain, r.tx, r.msg, r.eventIndex, r.denom)
  }

  const LEG_STRIDE := 8

  function EncodeEventIndex(event: int, leg: int): int {
    event * LEG_STRIDE + leg
  }

  function Signed(r: LedgerRow): int {
    if r.direction == Credit then r.amount else -r.amount
  }

  /** Signed sum of one account's rows in one denomination. */
  function Balance(rows: seq<LedgerRow>, account: string, denom: string): int {
    if rows == [] then 0
    else
      var last := rows[|rows| - 1];
      Balance(rows[..|rows| - 1], account, denom) + if last.address == account && last.denom == denom then Signed(last) else 0
  }

  predicate DistinctIdentities(rows: seq<LedgerRow>) {
    forall i, j :: 0 <= i < j < |rows| ==> IdentityOf(rows[i]) != IdentityOf(rows[j])
  }
}

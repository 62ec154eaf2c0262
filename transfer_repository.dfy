/**
 * The transfer ledger: a parent row in `transfers` and a child row in
 * `payment_transfers` under the same id. Rows are only ever inserted.
 */
module TransferRepository {
  import opened Exceptions
  import opened Store

  const NO_GENERATED_ID := "Failed to create transfer"

  /** A payment transfer as the join gives it back; its creation time is not modelled. */
  datatype PaymentTransfer = PaymentTransfer(id: int, userId: int, amount: real)

  /** The join of the two tables on the transfer id: both rows must exist. */
  function FindById(t: Tables, transferId: int): (r: Option<PaymentTransfer>)
    ensures r.Some? <==> transferId in t.transfers && transferId in t.paymentTransfers
    ensures r.Some? ==> r.value.id == transferId
  {
    if transferId in t.transfers && transferId in t.paymentTransfers then
      Some(PaymentTransfer(transferId, t.paymentTransfers[transferId], t.transfers[transferId].amount))
    else
      None
  }

  /** The tables after a payment transfer is saved under the fresh id `id`. */
  function Saved(t: Tables, id: int, userId: int, amount: real): (r: Tables)
    requires id !in t.transfers && id !in t.paymentTransfers
    ensures FindById(r, id) == Some(PaymentTransfer(id, userId, amount))
    ensures r.transfers[id].transferType == PAYMENT
    ensures forall k :: k != id ==> FindById(r, k) == FindById(t, k)
    ensures r.transfers.Keys == t.transfers.Keys + {id}
    ensures r.paymentTransfers.Keys == t.paymentTransfers.Keys + {id}
    ensures forall k :: k in t.transfers ==> r.transfers[k] == t.transfers[k]
    ensures forall k :: k in t.paymentTransfers ==> r.paymentTransfers[k] == t.paymentTransfers[k]
    ensures r.users == t.users
  {
    AddPaymentTransferRow(AddTransferRow(t, id, TransferRow(amount, PAYMENT)), id, userId)
  }

  /**
   * Inserts the parent row, takes the generated id, then inserts the child
   * row under it. If the insert yields no id the child is never written.
   * A failure part-way leaves the parent row pending; the caller's rollback
   * removes it.
   */
  method SavePaymentTransfer(
    db: Database, userId: int, amount: real,
    insertFault: Option<Exception>, idReturned: bool, childFault: Option<Exception>)
    returns (res: Result<int>)
    requires db.Valid() && db.connected
    modifies db
    ensures db.Valid() && db.connected && db.autoCommit == old(db.autoCommit)
    ensures db.nextId >= old(db.nextId) && db.acquisitions == old(db.acquisitions)
    ensures res.Ok? <==> insertFault.None? && idReturned && childFault.None?
    ensures insertFault.Some? ==> res == Err(insertFault.value)
    ensures insertFault.None? && !idReturned ==> res == Err(SqlError(NO_GENERATED_ID))
    ensures insertFault.None? && idReturned && childFault.Some? ==> res == Err(childFault.value)
    ensures res.Ok? ==>
              && res.value !in old(db.tables.transfers)
              && res.value !in old(db.tables.paymentTransfers)
              && db.tables == Saved(old(db.tables), res.value, userId, amount)
    ensures res.Err? ==>
              && db.tables.users == old(db.tables.users)
              && db.tables.paymentTransfers == old(db.tables.paymentTransfers)
              && forall k :: k in old(db.tables.transfers) ==>
                   k in db.tables.transfers && db.tables.transfers[k] == old(db.tables.transfers[k])
    ensures insertFault.Some? || !idReturned ==> db.tables == old(db.tables) && db.snapshot == old(db.snapshot)
    ensures insertFault.None? && idReturned && childFault.Some? ==>
              exists id :: && id !in old(db.tables.transfers) && id !in old(db.tables.paymentTransfers)
                           && db.tables == AddTransferRow(old(db.tables), id, TransferRow(amount, PAYMENT))
    ensures !db.autoCommit ==> db.snapshot == old(db.snapshot)
  {
    var generated :- db.InsertReturningId(TransferRow(amount, PAYMENT), insertFault, idReturned);
    if generated.None? {
      return Err(SqlError(NO_GENERATED_ID));
    }
    var transferId := generated.value;
    var child := db.Execute(childFault, AddPaymentTransferRow(db.tables, transferId, userId));
    if child.Fail? {
      return Err(child.exception);
    }
    res := Ok(transferId);
  }
}

/**
 * The three tables the payment path touches, held in memory, and the one
 * database connection a payment uses: its transaction and its id sequence.
 */
module Store {
  import opened Exceptions

  /** A row of `users`, without its key; `updated_at` is not modelled. */
  datatype UserRow = UserRow(username: string, name: string, email: string, balance: real, active: bool)

  /** A row of the parent table `transfers`; `created_at` is not modelled. */
  datatype TransferRow = TransferRow(amount: real, transferType: string)

  const PAYMENT := "PAYMENT"

  /**
   * `users` by id, `transfers` by id, and `payment_transfers`, the child table
   * that maps a transfer id to the id of the credited user.
   */
  datatype Tables = Tables(
    users: map<int, UserRow>,
    transfers: map<int, TransferRow>,
    paymentTransfers: map<int, int>)

  /** Every transfer id in use is below the next value of the id sequence. */
  ghost predicate KeysBelow(t: Tables, bound: int) {
    && (forall k :: k in t.transfers ==> k < bound)
    && (forall k :: k in t.paymentTransfers ==> k < bound)
  }

  /** The tables after one user's balance is overwritten. */
  function SetUserBalance(t: Tables, id: int, balance: real): (r: Tables)
    requires id in t.users
    ensures r.users.Keys == t.users.Keys
    ensures r.users[id] == t.users[id].(balance := balance)
    ensures forall k :: k in t.users && k != id ==> r.users[k] == t.users[k]
    ensures r.transfers == t.transfers && r.paymentTransfers == t.paymentTransfers
  {
    t.(users := t.users[id := t.users[id].(balance := balance)])
  }

  /** The tables after one row is inserted into `transfers` under a fresh id. */
  function AddTransferRow(t: Tables, id: int, row: TransferRow): (r: Tables)
    requires id !in t.transfers
    ensures r.transfers.Keys == t.transfers.Keys + {id} && r.transfers[id] == row
    ensures |r.transfers| == |t.transfers| + 1
    ensures forall k :: k in t.transfers ==> r.transfers[k] == t.transfers[k]
    ensures r.users == t.users && r.paymentTransfers == t.paymentTransfers
  {
    t.(transfers := t.transfers[id := row])
  }

  /** The tables after one row is inserted into `payment_transfers` under a fresh id. */
  function AddPaymentTransferRow(t: Tables, id: int, userId: int): (r: Tables)
    requires id !in t.paymentTransfers
    ensures r.paymentTransfers.Keys == t.paymentTransfers.Keys + {id}
    ensures r.paymentTransfers[id] == userId
    ensures |r.paymentTransfers| == |t.paymentTransfers| + 1
    ensures forall k :: k in t.paymentTransfers ==> r.paymentTransfers[k] == t.paymentTransfers[k]
    ensures r.users == t.users && r.transfers == t.transfers
  {
    t.(paymentTransfers := t.paymentTransfers[id := userId])
  }

  /**
   * The database as seen through the single connection a payment acquires.
   * `tables` includes the connection's own uncommitted writes; `snapshot` is
   * the committed state the current transaction started from, which a
   * rollback restores. The id sequence is not transactional: a rollback does
   * not give its values back.
   */
  class Database {
    var tables: Tables
    var snapshot: Tables
    var nextId: int
    var connected: bool
    var autoCommit: bool
    ghost var acquisitions: nat

    ghost predicate Valid()
      reads this
    {
      && KeysBelow(tables, nextId)
      && KeysBelow(snapshot, nextId)
      && (autoCommit ==> snapshot == tables)
      && (!connected ==> autoCommit)
    }

    /** No connection is held and no work is pending. */
    ghost predicate Idle()
      reads this
    {
      Valid() && !connected
    }

    constructor (initial: Tables, firstId: int)
      requires KeysBelow(initial, firstId)
      ensures Idle() && tables == initial && nextId == firstId && acquisitions == 0
    {
      tables, snapshot := initial, initial;
      nextId := firstId;
      connected, autoCommit := false, true;
      acquisitions := 0;
    }

    /** Takes a connection from the pool; a fresh connection is in auto-commit mode. */
    method Connect(fault: Option<Exception>) returns (o: Outcome)
      requires Idle()
      modifies this
      ensures Valid() && autoCommit
      ensures tables == old(tables) && snapshot == old(snapshot) && nextId == old(nextId)
      ensures fault.Some? ==> o == Fail(fault.value) && !connected && acquisitions == old(acquisitions)
      ensures fault.None? ==> o == Pass && connected && acquisitions == old(acquisitions) + 1
    {
      if fault.Some? {
        return Fail(fault.value);
      }
      connected := true;
      acquisitions := acquisitions + 1;
      o := Pass;
    }

    /** `setAutoCommit(false)`: later statements stay pending until commit or rollback. */
    method BeginTransaction(fault: Option<Exception>) returns (o: Outcome)
      requires Valid() && connected
      modifies this
      ensures Valid() && connected && acquisitions == old(acquisitions)
      ensures tables == old(tables) && snapshot == old(snapshot) && nextId == old(nextId)
      ensures fault.Some? ==> o == Fail(fault.value) && autoCommit == old(autoCommit)
      ensures fault.None? ==> o == Pass && !autoCommit
    {
      if fault.Some? {
        return Fail(fault.value);
      }
      autoCommit := false;
      o := Pass;
    }

    /** Runs one statement whose effect on the tables is `next`; in auto-commit mode it commits at once. */
    method Execute(fault: Option<Exception>, next: Tables) returns (o: Outcome)
      requires Valid() && connected && KeysBelow(next, nextId)
      modifies this
      ensures Valid() && connected && autoCommit == old(autoCommit)
      ensures nextId == old(nextId) && acquisitions == old(acquisitions)
      ensures fault.Some? ==> o == Fail(fault.value) && tables == old(tables) && snapshot == old(snapshot)
      ensures fault.None? ==> o == Pass && tables == next
      ensures fault.None? ==> snapshot == if autoCommit then next else old(snapshot)
    {
      if fault.Some? {
        return Fail(fault.value);
      }
      tables := next;
      if autoCommit {
        snapshot := next;
      }
      o := Pass;
    }

    /**
     * `INSERT INTO transfers ... RETURNING id`: the id comes from the sequence.
     * When the statement yields no row, nothing is inserted.
     */
    method InsertReturningId(row: TransferRow, fault: Option<Exception>, returnsRow: bool)
      returns (res: Result<Option<int>>)
      requires Valid() && connected
      modifies this
      ensures Valid() && connected && autoCommit == old(autoCommit) && acquisitions == old(acquisitions)
      ensures fault.Some? ==> res == Err(fault.value)
      ensures fault.None? && !returnsRow ==> res == Ok(None)
      ensures res.Ok? && res.value.Some? <==> fault.None? && returnsRow
      ensures !(res.Ok? && res.value.Some?) ==>
                tables == old(tables) && snapshot == old(snapshot) && nextId == old(nextId)
      ensures res.Ok? && res.value.Some? ==>
                && res.value.value !in old(tables.transfers)
                && res.value.value !in old(tables.paymentTransfers)
                && res.value.value < nextId
                && nextId == old(nextId) + 1
                && tables == AddTransferRow(old(tables), res.value.value, row)
                && snapshot == if autoCommit then tables else old(snapshot)
    {
      if fault.Some? {
        return Err(fault.value);
      }
      if !returnsRow {
        return Ok(None);
      }
      var id := nextId;
      nextId := nextId + 1;
      tables := AddTransferRow(tables, id, row);
      if autoCommit {
        snapshot := tables;
      }
      res := Ok(Some(id));
    }

    /** Makes the pending writes durable; the next transaction starts from them. */
    method Commit(fault: Option<Exception>) returns (o: Outcome)
      requires Valid() && connected && !autoCommit
      modifies this
      ensures Valid() && connected && !autoCommit
      ensures tables == old(tables) && nextId == old(nextId) && acquisitions == old(acquisitions)
      ensures fault.Some? ==> o == Fail(fault.value) && snapshot == old(snapshot)
      ensures fault.None? ==> o == Pass && snapshot == tables
    {
      if fault.Some? {
        return Fail(fault.value);
      }
      snapshot := tables;
      o := Pass;
    }

    /** Discards the pending writes; in auto-commit mode there are none. */
    method Rollback()
      requires Valid() && connected
      modifies this
      ensures Valid() && connected && autoCommit == old(autoCommit)
      ensures tables == old(snapshot) && snapshot == old(snapshot)
      ensures nextId == old(nextId) && acquisitions == old(acquisitions)
    {
      tables := snapshot;
    }

    /** Returns the connection; work still pending on it is discarded. */
    method Close()
      requires Valid() && connected
      modifies this
      ensures Idle()
      ensures tables == old(snapshot) && snapshot == old(snapshot)
      ensures nextId == old(nextId) && acquisitions == old(acquisitions)
    {
      tables := snapshot;
      connected, autoCommit := false, true;
    }
  }
}

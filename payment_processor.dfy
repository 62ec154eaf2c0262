/**
 * The payment path: validate the command, then inside one transaction load
 * the user, credit it, record the transfer, write the balance and commit.
 * Every exception rolls the transaction back and becomes a failure result;
 * the connection is closed on every exit.
 */
module PaymentProcessor {
  import opened Exceptions
  import opened Text
  import opened Command
  import opened PaymentResults
  import opened Store
  import UserRepository
  import TransferRepository

  const ACCOUNT_NOT_ACTIVE := "User account is not active"

  /**
   * What the database and the connection pool do at each step of a payment:
   * an exception they throw there, or none. `transferIdReturned` is false
   * when the insert into `transfers` hands back no generated id.
   */
  datatype Environment = Environment(
    getConnection: Option<Exception>,
    setAutoCommit: Option<Exception>,
    selectUser: Option<Exception>,
    insertTransfer: Option<Exception>,
    transferIdReturned: bool,
    insertPaymentTransfer: Option<Exception>,
    updateBalance: Option<Exception>,
    commit: Option<Exception>)

  /** An environment in which every step completes normally. */
  const NO_FAULTS := Environment(None, None, None, None, true, None, None, None)

  function UserNotFound(userId: int): string {
    "User not found: " + LongToString(userId)
  }

  /** The steps before the user lookup complete normally. */
  predicate ReachesLookup(env: Environment) {
    env.getConnection.None? && env.setAutoCommit.None? && env.selectUser.None?
  }

  /** The failure reason each catch clause reports. */
  function Reason(e: Exception): string {
    match e
    case IllegalArgument(message) => message
    case SqlError(message) => "Database error: " + message
    case OtherException(message) => "Unexpected error: " + message
  }

  /**
   * The exception a payment raises, if any: each step in the order the
   * payment runs them, the first one that throws deciding the outcome.
   */
  function FirstError(cmd: AddPaymentCommand, t: Tables, env: Environment): Option<Exception> {
    if Validate(cmd).Fail? then Some(Validate(cmd).exception)
    else
      var userId, amount := cmd.userId.value, cmd.amount.value;
      if env.getConnection.Some? then env.getConnection
      else if env.setAutoCommit.Some? then env.setAutoCommit
      else if env.selectUser.Some? then env.selectUser
      else if userId !in t.users then Some(IllegalArgument(UserNotFound(userId)))
      else if !t.users[userId].active then Some(IllegalArgument(ACCOUNT_NOT_ACTIVE))
      else if amount <= 0.0 then Some(IllegalArgument(UserRepository.AMOUNT_NOT_POSITIVE))
      else if env.insertTransfer.Some? then env.insertTransfer
      else if !env.transferIdReturned then Some(SqlError(TransferRepository.NO_GENERATED_ID))
      else if env.insertPaymentTransfer.Some? then env.insertPaymentTransfer
      else if env.updateBalance.Some? then env.updateBalance
      else env.commit
  }

  /** The tables after a committed payment of `amount` to `userId`, recorded under `id`. */
  function Credited(t: Tables, userId: int, amount: real, id: int): (r: Tables)
    requires userId in t.users && id !in t.transfers && id !in t.paymentTransfers
    ensures r.users.Keys == t.users.Keys
    ensures r.users[userId].balance == t.users[userId].balance + amount
    ensures r.users[userId] == t.users[userId].(balance := r.users[userId].balance)
    ensures forall k :: k in t.users && k != userId ==> r.users[k] == t.users[k]
    ensures r.transfers.Keys == t.transfers.Keys + {id} && |r.transfers| == |t.transfers| + 1
    ensures r.transfers[id] == TransferRow(amount, PAYMENT)
    ensures r.paymentTransfers.Keys == t.paymentTransfers.Keys + {id}
    ensures forall k :: k in t.transfers ==> r.transfers[k] == t.transfers[k]
    ensures forall k :: k in t.paymentTransfers ==> r.paymentTransfers[k] == t.paymentTransfers[k]
    ensures TransferRepository.FindById(r, id) == Some(TransferRepository.PaymentTransfer(id, userId, amount))
    ensures r.paymentTransfers[id] in r.users
  {
    var saved := TransferRepository.Saved(t, id, userId, amount);
    SetUserBalance(saved, userId, t.users[userId].balance + amount)
  }

  /**
   * The body of the `try` block of a payment: it returns the success result, or
   * the exception that stopped it. After an exception the committed state
   * is still the one the payment started from.
   */
  method Attempt(db: Database, cmd: AddPaymentCommand, env: Environment) returns (res: Result<PaymentResult>)
    requires db.Idle()
    modifies db
    ensures db.Valid() && db.nextId >= old(db.nextId)
    ensures db.connected == (Validate(cmd).Pass? && env.getConnection.None?)
    ensures db.acquisitions == old(db.acquisitions) + (if db.connected then 1 else 0)
    ensures Validate(cmd).Fail? ==> unchanged(db)
    ensures res.Err? <==> FirstError(cmd, old(db.tables), env).Some?
    ensures res.Err? ==> res.exception == FirstError(cmd, old(db.tables), env).value
    ensures res.Err? ==> db.snapshot == old(db.tables)
    ensures res.Ok? ==>
              && cmd.userId.Some? && cmd.amount.Some?
              && cmd.userId.value in old(db.tables.users)
              && res.value.transferId.Some?
              && res.value.transferId.value !in old(db.tables.transfers)
              && res.value.transferId.value !in old(db.tables.paymentTransfers)
              && res.value == Success(res.value.transferId.value, cmd.userId.value, cmd.amount.value,
                                      old(db.tables.users[cmd.userId.value].balance) + cmd.amount.value)
              && db.snapshot == db.tables
              && db.tables == Credited(old(db.tables), cmd.userId.value, cmd.amount.value, res.value.transferId.value)
  {
    var validation := Validate(cmd);
    if validation.Fail? {
      return Err(validation.exception);
    }
    var userId, amount := cmd.userId.value, cmd.amount.value;
    :- db.Connect(env.getConnection);
    :- db.BeginTransaction(env.setAutoCommit);

    var user :- UserRepository.FindById(db, userId, env.selectUser);
    if user == null {
      return Err(IllegalArgument(UserNotFound(userId)));
    }
    if !user.active {
      return Err(IllegalArgument(ACCOUNT_NOT_ACTIVE));
    }
    var credited := user.AddBalance(amount);
    if credited.Fail? {
      // the amount was validated positive above, so this guard does not fire
      return Err(IllegalArgument(UserRepository.AMOUNT_NOT_POSITIVE));
    }

    var transferId :- TransferRepository.SavePaymentTransfer(
      db, userId, amount, env.insertTransfer, env.transferIdReturned, env.insertPaymentTransfer);
    :- UserRepository.UpdateBalance(db, userId, user.balance, env.updateBalance);
    :- db.Commit(env.commit);

    res := Ok(Success(transferId, userId, amount, user.balance));
  }

  /** Rolls back through the connection, if one was acquired. */
  method Rollback(db: Database)
    requires db.Valid()
    modifies db
    ensures db.Valid() && db.connected == old(db.connected) && db.autoCommit == old(db.autoCommit)
    ensures db.tables == old(db.snapshot) && db.snapshot == old(db.snapshot)
    ensures db.nextId == old(db.nextId) && db.acquisitions == old(db.acquisitions)
    ensures !old(db.connected) ==> unchanged(db)
  {
    if db.connected {
      db.Rollback();
    }
  }

  /** Closes the connection, if one was acquired. */
  method CloseConnection(db: Database)
    requires db.Valid()
    modifies db
    ensures db.Idle()
    ensures db.tables == old(db.snapshot) && db.snapshot == old(db.snapshot)
    ensures db.nextId == old(db.nextId) && db.acquisitions == old(db.acquisitions)
    ensures !old(db.connected) ==> unchanged(db)
  {
    if db.connected {
      db.Close();
    }
  }

  /**
   * Processes one payment. All-or-nothing: a success writes exactly one new
   * transfer and the credited balance; a failure leaves every table as it
   * was. The connection is released on every path.
   */
  method ProcessPayment(db: Database, cmd: AddPaymentCommand, env: Environment) returns (r: PaymentResult)
    requires db.Idle()
    modifies db
    ensures db.Idle() && db.nextId >= old(db.nextId)
    ensures r.userId == cmd.userId && r.amount == cmd.amount
    // an invalid command is rejected before any connection is taken
    ensures Validate(cmd).Fail? ==>
              unchanged(db) && r == Failure(cmd.userId, cmd.amount, Validate(cmd).exception.message)
    ensures Validate(cmd).Pass? ==>
              db.acquisitions == old(db.acquisitions) + (if env.getConnection.None? then 1 else 0)
    ensures Succeeded(r) <==> FirstError(cmd, old(db.tables), env).None?
    ensures !Succeeded(r) ==>
              && db.tables == old(db.tables)
              && r == Failure(cmd.userId, cmd.amount, Reason(FirstError(cmd, old(db.tables), env).value))
    ensures Succeeded(r) ==>
              && cmd.userId.Some? && cmd.amount.Some?
              && cmd.userId.value in old(db.tables.users)
              && old(db.tables.users[cmd.userId.value].active)
              && r.transferId.Some? && r.transferId.value !in old(db.tables.transfers)
              && r.transferId.value !in old(db.tables.paymentTransfers)
              && r.newBalance == Some(old(db.tables.users[cmd.userId.value].balance) + cmd.amount.value)
              && db.tables == Credited(old(db.tables), cmd.userId.value, cmd.amount.value, r.transferId.value)
    // storage failures and unexpected exceptions are reported under their own headings
    ensures match FirstError(cmd, old(db.tables), env)
            case Some(SqlError(m)) => r.status == FAILED_PREFIX + ("Database error: " + m)
            case Some(OtherException(m)) => r.status == FAILED_PREFIX + ("Unexpected error: " + m)
            case _ => true
    // the reasons for a missing or an inactive account
    ensures Validate(cmd).Pass? && ReachesLookup(env) && cmd.userId.value !in old(db.tables.users) ==>
              r.status == FAILED_PREFIX + UserNotFound(cmd.userId.value)
    ensures Validate(cmd).Pass? && ReachesLookup(env) && cmd.userId.value in old(db.tables.users)
            && !old(db.tables.users[cmd.userId.value].active) ==>
              r.status == FAILED_PREFIX + ACCOUNT_NOT_ACTIVE
    // when the database never fails, the outcome depends on the command and the account alone
    ensures env == NO_FAULTS ==>
              (Succeeded(r) <==> Validate(cmd).Pass? && cmd.userId.value in old(db.tables.users)
                                 && old(db.tables.users[cmd.userId.value].active))
  {
    var outcome := Attempt(db, cmd, env);
    if outcome.Err? {
      Rollback(db);
      r := Failure(cmd.userId, cmd.amount, Reason(outcome.exception));
    } else {
      r := outcome.value;
    }
    CloseConnection(db);
  }

  /** The reason given for a missing account names it: two different ids never share one. */
  lemma UserNotFoundInjective(a: int, b: int)
    requires UserNotFound(a) == UserNotFound(b)
    ensures a == b
  {
    var prefix := "User not found: ";
    assert LongToString(a) == UserNotFound(a)[|prefix|..];
    assert LongToString(b) == UserNotFound(b)[|prefix|..];
    LongToStringInjective(a, b);
  }

  /**
   * Payments are not idempotent: the same command processed twice against
   * an active account credits it twice and records two distinct transfers.
   */
  method RepeatedPayment(db: Database, cmd: AddPaymentCommand) returns (first: PaymentResult, second: PaymentResult)
    requires db.Idle() && Validate(cmd).Pass?
    requires cmd.userId.value in db.tables.users && db.tables.users[cmd.userId.value].active
    modifies db
    ensures db.Idle()
    ensures Succeeded(first) && Succeeded(second) && first.transferId != second.transferId
    ensures cmd.userId.value in db.tables.users
    ensures db.tables.users[cmd.userId.value].balance
              == old(db.tables.users[cmd.userId.value].balance) + 2.0 * cmd.amount.value
    ensures |db.tables.transfers| == |old(db.tables.transfers)| + 2
  {
    first := ProcessPayment(db, cmd, NO_FAULTS);
    second := ProcessPayment(db, cmd, NO_FAULTS);
  }

  /**
   * A payment whose balance write fails after its transfer was written:
   * neither the transfer nor the credit survives.
   */
  method BalanceWriteFailureScenario() {
    var alice := UserRow("alice", "Alice", "alice@example.org", 100.0, true);
    var initial := Tables(map[1 := alice], map[], map[]);
    var db := new Database(initial, 1);
    var cmd := AddPaymentCommand(Some(1), Some(50.0));
    var env := NO_FAULTS.(updateBalance := Some(SqlError("connection reset")));
    assert FirstError(cmd, initial, env) == Some(SqlError("connection reset"));
    var r := ProcessPayment(db, cmd, env);
    assert r.status == FAILED_PREFIX + "Database error: connection reset";
    assert db.tables == initial;
  }

  /** An active account holding 100.00 is credited 50.00. */
  method CreditScenario() {
    var alice := UserRow("alice", "Alice", "alice@example.org", 100.0, true);
    var initial := Tables(map[1 := alice], map[], map[]);
    var db := new Database(initial, 1);
    var cmd := AddPaymentCommand(Some(1), Some(50.0));
    assert FirstError(cmd, initial, NO_FAULTS).None?;
    var r := ProcessPayment(db, cmd, NO_FAULTS);
    assert r.newBalance == Some(150.0);
    assert db.tables.users[1].balance == 150.0;
    var id := r.transferId.value;
    assert TransferRepository.FindById(db.tables, id) == Some(TransferRepository.PaymentTransfer(id, 1, 50.0));
  }

  /** Account 999 does not exist. */
  method MissingAccountScenario() {
    var initial := Tables(map[], map[], map[]);
    var db := new Database(initial, 1);
    assert LongToString(999) == "999";
    assert UserNotFound(999) == "User not found: 999";
    var r := ProcessPayment(db, AddPaymentCommand(Some(999), Some(10.0)), NO_FAULTS);
    assert r.status == FAILED_PREFIX + UserNotFound(999);
    assert db.tables == initial;
  }

  /** Account 2 exists but is inactive. */
  method InactiveAccountScenario() {
    var bob := UserRow("bob", "Bob", "bob@example.org", 20.0, false);
    var initial := Tables(map[2 := bob], map[], map[]);
    var db := new Database(initial, 1);
    var r := ProcessPayment(db, AddPaymentCommand(Some(2), Some(5.0)), NO_FAULTS);
    assert r.status == FAILED_PREFIX + ACCOUNT_NOT_ACTIVE;
    assert db.tables == initial;
  }

  /** A zero or negative amount is rejected before a connection is taken. */
  method NonPositiveAmountScenario() {
    var db := new Database(Tables(map[], map[], map[]), 1);
    var r := ProcessPayment(db, AddPaymentCommand(Some(2), Some(0.0)), NO_FAULTS);
    assert r == Failure(Some(2), Some(0.0), AMOUNT_NOT_POSITIVE);
    r := ProcessPayment(db, AddPaymentCommand(Some(2), Some(-5.0)), NO_FAULTS);
    assert r == Failure(Some(2), Some(-5.0), AMOUNT_NOT_POSITIVE);
    assert db.acquisitions == 0;
  }
}

# Marketplace payment function: a Dafny model of the payment path

The repository credits one user's balance by a payment amount and records the
transfer, all in one database transaction. This project models that path with
the SQL tables held in memory:

- `Command` (command.dfy): the `AddPaymentCommand` record and its ordered
  guard checks.
- `PaymentResults` (payment_result.dfy): the result record and its `success`
  and `failure` factories.
- `Store` (store.dfy): the `users`, `transfers` and `payment_transfers` tables,
  plus a `Database` class for the one connection a payment uses. The class
  holds the tables as the connection sees them, the committed snapshot that a
  rollback restores, the id sequence and the connection state. Its object
  invariant `Valid()` says that auto-commit mode has no pending work and that
  every transfer id is below the next sequence value.
- `UserRepository` (user_repository.dfy): the lookup and balance update, and
  the in-memory `User` with its `addBalance` / `setBalance`.
- `TransferRepository` (transfer_repository.dfy): the two-table insert with a
  generated id, and the join that reads a transfer back.
- `PaymentProcessor` (payment_processor.dfy): `processPayment` with its
  `rollback` and `closeConnection` helpers.
- `Text` (text.dfy): Java's rendering of a `Long` in a string, used by the
  "User not found: <id>" reasons.
- `Exceptions` (exceptions.dfy): Java nulls become `Option`. Exceptions become
  `Outcome` and `Result` values in three kinds, the kinds the catch clauses
  tell apart: IllegalArgumentException, SQLException and anything else.

Faults of the database and of the connection pool are an explicit
`Environment` value. It gives the exception thrown, if any, at each step:
acquiring the connection, `setAutoCommit(false)`, the user select, the
parent insert, the child insert, the balance update and the commit. It also
says whether the parent insert hands back a generated id. The function
`PaymentProcessor.FirstError` states which exception a payment raises: the
first step that throws, in the order the code runs them. `ProcessPayment` is
proved against it. On success exactly one transfer is added and the balance
is credited; on any failure every table equals its state before the call.

Amounts and balances are `real`, because `BigDecimal` arithmetic is exact and
`compareTo` ignores scale. Identifiers are unbounded integers.

`validate` rejects only a null id. The id's sign is not checked, so a zero or
negative id is looked up like any other
(src/main/java/me/aco/marketplace/payment/AddPaymentCommand.java:10-12).

## Model

| member | source | states |
|---|---|---|
| Command.Validate | src/main/java/me/aco/marketplace/payment/AddPaymentCommand.java:9-21 | accepts exactly when userId is present, amount is present and amount > 0 (the id's sign is not checked); otherwise an IllegalArgument with the first failing check's message: null id first, then null amount, then "Amount must be greater than zero" for zero and negative amounts; a pure function of the immutable record, so the command is unchanged |
| PaymentResults.Success | src/main/java/me/aco/marketplace/payment/PaymentResult.java:14-23 | status is "SUCCESS" and the transfer id, user id, amount and new balance are carried unchanged |
| PaymentResults.Failure | src/main/java/me/aco/marketplace/payment/PaymentResult.java:25-34 | transfer id and new balance are null, user id and amount are echoed, status is "FAILED: " followed by the message and so is never "SUCCESS" |
| Store.SetUserBalance | src/main/java/me/aco/marketplace/payment/database/UserRepository.java:47-53 | the UPDATE changes only the balance of the target row; the other columns, the other users and both transfer tables are unchanged |
| Store.AddTransferRow | src/main/java/me/aco/marketplace/payment/database/TransferRepository.java:27-39 | the parent insert adds exactly one row under a fresh id and leaves every existing row as it was |
| Store.AddPaymentTransferRow | src/main/java/me/aco/marketplace/payment/database/TransferRepository.java:43-49 | the child insert adds exactly one row, mapping the id to the user id, and leaves every existing row as it was |
| Store.Database.Connect | src/main/java/me/aco/marketplace/payment/PaymentProcessor.java:31 | a connection is acquired (counted) in auto-commit mode, or the pool's exception is returned and no connection is held |
| Store.Database.BeginTransaction | src/main/java/me/aco/marketplace/payment/PaymentProcessor.java:32 | turns auto-commit off, so later writes stay pending; on a fault nothing changes |
| Store.Database.InsertReturningId | src/main/java/me/aco/marketplace/payment/database/TransferRepository.java:27-39 | the id comes from the sequence and is fresh in both transfer tables; a fault or an empty result inserts nothing |
| Store.Database.Execute | src/main/java/me/aco/marketplace/payment/database/UserRepository.java:54 | one write statement (`executeUpdate`, also TransferRepository.java:48): on a fault nothing changes and the exception is returned; otherwise the tables become the statement's effect, and the committed snapshot follows them only in auto-commit mode |
| Store.Database.Commit | src/main/java/me/aco/marketplace/payment/PaymentProcessor.java:58 | on success the pending writes become the committed snapshot; on a fault the snapshot is kept |
| Store.Database.Rollback | src/main/java/me/aco/marketplace/payment/PaymentProcessor.java:96 | the tables return to the committed snapshot |
| Store.Database.Close | src/main/java/me/aco/marketplace/payment/PaymentProcessor.java:107 | no connection is held afterwards and pending work is discarded |
| UserRepository.User.constructor | src/main/java/me/aco/marketplace/payment/database/UserRepository.java:72-79 | every field holds the given value |
| UserRepository.User.SetBalance | src/main/java/me/aco/marketplace/payment/database/UserRepository.java:101-103 | the balance becomes the given value |
| UserRepository.User.AddBalance | src/main/java/me/aco/marketplace/payment/database/UserRepository.java:109-114 | a positive amount adds to the balance; zero or negative throws "Amount must be positive" and leaves the balance unchanged |
| UserRepository.FindById | src/main/java/me/aco/marketplace/payment/database/UserRepository.java:21-42 | with no fault: null exactly when the id is absent (not an error); otherwise a new User holding that row's columns under that id; a fault is returned as the exception |
| UserRepository.UpdateBalance | src/main/java/me/aco/marketplace/payment/database/UserRepository.java:47-59 | an existing id gets the new balance and nothing else changes; a missing id fails with SQLException "User not found: <id>" and changes nothing; a fault changes nothing |
| TransferRepository.FindById | src/main/java/me/aco/marketplace/payment/database/TransferRepository.java:57-80 | a transfer is found exactly when both the parent and the child row exist under the id, and it carries that id |
| TransferRepository.Saved | src/main/java/me/aco/marketplace/payment/database/TransferRepository.java:25-52 | round trip: FindById on the new id yields that id, the user id and the amount; the parent row has type PAYMENT; lookups of every other id are unaffected; insert-only |
| TransferRepository.SavePaymentTransfer | src/main/java/me/aco/marketplace/payment/database/TransferRepository.java:25-52 | succeeds exactly when neither insert throws and an id is generated, returning a fresh id with the tables equal to Saved; no generated id throws "Failed to create transfer" before the child insert; an insert fault or a missing id leaves the tables and snapshot unchanged; a child-insert fault leaves exactly one pending parent row of type PAYMENT under a fresh id; on failure no existing row is changed or removed |
| PaymentProcessor.Credited | src/main/java/me/aco/marketplace/payment/PaymentProcessor.java:49-58 | the committed effect of a payment: the balance becomes old balance + amount with other columns and users untouched; exactly one new transfer of type PAYMENT, readable back with the user id and amount, referencing an existing account; no existing transfer changed |
| PaymentProcessor.Attempt | src/main/java/me/aco/marketplace/payment/PaymentProcessor.java:26-66 | the try block raises exactly FirstError's exception; after a failure the committed snapshot is the pre-call state; an invalid command touches nothing; on success the tables are Credited and committed |
| PaymentProcessor.Rollback | src/main/java/me/aco/marketplace/payment/PaymentProcessor.java:93-102 | with a connection, the tables return to the committed snapshot; with no connection nothing changes |
| PaymentProcessor.CloseConnection | src/main/java/me/aco/marketplace/payment/PaymentProcessor.java:104-113 | afterwards no connection is held; with no connection nothing changes |
| PaymentProcessor.ProcessPayment | src/main/java/me/aco/marketplace/payment/PaymentProcessor.java:23-91 | an invalid command fails with its validation message and takes no connection; success exactly when no step throws; a failure leaves all three tables as before, with reason "User not found: <id>", "User account is not active", "Database error: <msg>" or "Unexpected error: <msg>"; a success returns a fresh transfer id and old balance + amount; the connection is released on every path |
| PaymentProcessor.UserNotFoundInjective | src/main/java/me/aco/marketplace/payment/PaymentProcessor.java:40-42 | the not-found reason identifies the account: two different ids never give the same reason |
| PaymentProcessor.RepeatedPayment | src/main/java/me/aco/marketplace/payment/PaymentProcessor.java:23-91 | payments are not idempotent: the same command twice credits the account twice and records two distinct transfers |
| Text.LongToString | src/main/java/me/aco/marketplace/payment/PaymentProcessor.java:41 | Long.toString: a non-empty rendering that starts with '-' exactly for negative ids |
| Text.ParseLongToString | src/main/java/me/aco/marketplace/payment/database/UserRepository.java:56 | the rendering of an id reads back as that id |
| Text.LongToStringInjective | src/main/java/me/aco/marketplace/payment/database/UserRepository.java:56 | distinct ids render differently |

## Left out

- Concurrency and isolation are not modelled. Two payments to one account can lose an update, because the code reads the balance, adds to it in memory and writes it back without a lock. The model runs one payment at a time, so a user deleted between the read and the write cannot happen here. The "User not found" branch of `updateBalance` is modelled but never reached from `ProcessPayment`.
- Failures of rollback and of close themselves are not modelled; the code only prints them to stderr. Rollback is taken to restore the committed snapshot.
- Timestamps are not modelled: the result's generation time, `created_at`, `updated_at`, and the `createdAt` of a transfer read back. That last value is the time of the lookup, not the stored column.
- The HTTP entry point, JSON parsing, and the pool configuration with its environment variables are outside this model (`Function.java` and `DatabaseConfig.java` are not part of it). The command reference is never null, because the caller always builds one.
- SQL text, `PreparedStatement` / `ResultSet` mechanics and the exact exception messages of the driver and the pool are not modelled. Those messages are a parameter of the `Environment`.
- A NULL `balance` column, and the null-pointer exception `addBalance` would then raise, are not modelled. Balances are always present. An "Unexpected error" is modelled as a fault of the environment instead.
- BigDecimal scale and the precision of the NUMERIC columns are not modelled; amounts are exact reals. Ids are unbounded rather than 64-bit.
- PaymentProcessor.ProcessPayment: the generated transfer id is promised fresh (in neither transfer table, and below the sequence's next value), not equal to a particular value. The id sequence is not rolled back on failure, as with a database sequence.
- TransferRepository.FindById: a read outside the payment path. It is a pure function of the tables, without a fault parameter.

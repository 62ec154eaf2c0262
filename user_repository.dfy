/** Lookups and balance updates on the `users` table, and the in-memory user. */
module UserRepository {
  import opened Exceptions
  import opened Text
  import opened Store

  const AMOUNT_NOT_POSITIVE := "Amount must be positive"

  /** A user loaded from the table; only its balance can change afterwards. */
  class User {
    const id: int
    const username: string
    const name: string
    const email: string
    var balance: real
    const active: bool

    constructor (id: int, username: string, name: string, email: string, balance: real, active: bool)
      ensures this.id == id && this.username == username && this.name == name
      ensures this.email == email && this.balance == balance && this.active == active
    {
      this.id := id;
      this.username := username;
      this.name := name;
      this.email := email;
      this.balance := balance;
      this.active := active;
    }

    method SetBalance(balance: real)
      modifies this
      ensures this.balance == balance
    {
      this.balance := balance;
    }

    /** Credits `amount`, which must be positive: a second guard behind command validation. */
    method AddBalance(amount: real) returns (o: Outcome)
      modifies this
      ensures amount > 0.0 ==> o == Pass && balance == old(balance) + amount
      ensures amount <= 0.0 ==> o == Fail(IllegalArgument(AMOUNT_NOT_POSITIVE)) && balance == old(balance)
    {
      if amount <= 0.0 {
        return Fail(IllegalArgument(AMOUNT_NOT_POSITIVE));
      }
      balance := balance + amount;
      o := Pass;
    }
  }

  /** The user object holds exactly the columns of the row. */
  ghost predicate Loaded(u: User, id: int, row: UserRow)
    reads u
  {
    && u.id == id && u.username == row.username && u.name == row.name && u.email == row.email
    && u.balance == row.balance && u.active == row.active
  }

  /** Selects the user by id; an absent row gives `null`, not an error. */
  method FindById(db: Database, userId: int, fault: Option<Exception>) returns (res: Result<User?>)
    requires db.connected
    ensures fault.Some? ==> res == Err(fault.value)
    ensures fault.None? ==> res.Ok? && (res.value == null <==> userId !in db.tables.users)
    ensures res.Ok? && res.value != null ==>
              userId in db.tables.users && fresh(res.value) && Loaded(res.value, userId, db.tables.users[userId])
  {
    if fault.Some? {
      return Err(fault.value);
    }
    if userId !in db.tables.users {
      return Ok(null);
    }
    var row := db.tables.users[userId];
    var user := new User(userId, row.username, row.name, row.email, row.balance, row.active);
    res := Ok(user);
  }

  /**
   * Overwrites one user's balance. A statement that matches no row is
   * reported as an SQLException naming the id, and changes nothing.
   */
  method UpdateBalance(db: Database, userId: int, newBalance: real, fault: Option<Exception>)
    returns (o: Outcome)
    requires db.Valid() && db.connected
    modifies db
    ensures db.Valid() && db.connected && db.autoCommit == old(db.autoCommit)
    ensures db.nextId == old(db.nextId) && db.acquisitions == old(db.acquisitions)
    ensures fault.Some? ==> o == Fail(fault.value)
    ensures fault.None? && userId !in old(db.tables.users) ==>
              o == Fail(SqlError("User not found: " + LongToString(userId)))
    ensures o.Fail? ==> db.tables == old(db.tables) && db.snapshot == old(db.snapshot)
    ensures fault.None? && userId in old(db.tables.users) ==>
              && o == Pass
              && db.tables == SetUserBalance(old(db.tables), userId, newBalance)
              && db.snapshot == if db.autoCommit then db.tables else old(db.snapshot)
  {
    var rowsAffected := if userId in db.tables.users then 1 else 0;
    var next := if rowsAffected == 1 then SetUserBalance(db.tables, userId, newBalance) else db.tables;
    o := db.Execute(fault, next);
    if o.Pass? && rowsAffected == 0 {
      o := Fail(SqlError("User not found: " + LongToString(userId)));
    }
  }
}

/** `dao.Database`: the MySQL server the DAOs talk to, and the one piece
    of logic the class holds, `runInTransaction`. Every DAO call opens a
    connection of its own; a connection starts in auto-commit mode, where
    each statement is committed as it runs. */
module Database {
  import opened Basics
  import opened Tables

  /** The server: the committed tables, shared by every connection. */
  class Server {
    var store: Store

    /** A server whose schema `ensureSchema` has just created. */
    constructor ()
      ensures store == EmptyStore && Valid()
    {
      store := EmptyStore;
      EmptyStoreConsistent();
    }

    /** The committed tables meet the schema's constraints. */
    ghost predicate Valid()
      reads this
    {
      Consistent(store)
    }
  }

  /** A JDBC connection. With auto-commit off, the statements it runs change
      only its private `work` copy of the tables until `Commit` publishes
      them or `Rollback` discards them. */
  class Connection {
    const server: Server
    var autoCommit: bool
    var open: bool
    var work: Store

    /** Nothing is pending while auto-commit is on. */
    ghost predicate Valid()
      reads this, server
    {
      autoCommit ==> work == server.store
    }

    /** `getConnection()`: a new, open connection in auto-commit mode. */
    constructor (server: Server)
      ensures this.server == server && open && autoCommit && work == server.store
      ensures Valid()
    {
      this.server := server;
      autoCommit := true;
      open := true;
      work := server.store;
    }

    /** `setAutoCommit(on)`. Switching auto-commit back on commits what is
        pending, as JDBC prescribes. */
    method SetAutoCommit(on: bool)
      requires open && Valid()
      modifies this, server
      ensures autoCommit == on && open && Valid()
      ensures server.store == (if on then old(work) else old(server.store))
      ensures work == old(work)
    {
      if on && !autoCommit {
        server.store := work;
      }
      autoCommit := on;
    }

    /** `executeUpdate()` of one statement: straight to the server in
        auto-commit mode, into the pending work otherwise. */
    method Execute(st: Stmt)
      requires open && Valid()
      modifies this, server
      ensures open && autoCommit == old(autoCommit) && Valid()
      ensures work == Exec(old(work), st)
      ensures server.store == (if autoCommit then Exec(old(server.store), st) else old(server.store))
    {
      work := Exec(work, st);
      if autoCommit {
        server.store := work;
      }
    }

    /** `commit()`: the pending work becomes the committed tables. */
    method Commit()
      requires open && !autoCommit
      modifies server
      ensures server.store == work && Valid()
    {
      server.store := work;
    }

    /** `rollback()`: the pending work is discarded. */
    method Rollback()
      requires open && !autoCommit
      modifies this
      ensures work == server.store && open && autoCommit == old(autoCommit) && Valid()
    {
      work := server.store;
    }

    /** `close()`, as try-with-resources calls it. */
    method Close()
      modifies this
      ensures !open && autoCommit == old(autoCommit) && work == old(work)
    {
      open := false;
    }
  }

  /** Where a `SQLException` interrupts a call: opening the connection,
      the body at statement `step` (before that statement takes effect), the
      commit, or, after a successful commit, the `setAutoCommit(old)` of the
      `finally` block or the closing of the connection. `RollbackFails(step)`
      is a body failing at `step`, or the commit failing when `step` is at
      least the body's length, followed by a `rollback()` that throws too. */
  datatype TxFault =
    | NoFault
    | ConnectFails
    | BodyFailsAt(step: nat)
    | CommitFails
    | AfterCommitFails
    | RollbackFails(step: nat)

  /** Whether a body of `n` statements runs to a successful commit and the
      call returns normally. */
  predicate Completes(fault: TxFault, n: nat) {
    fault.NoFault? || (fault.BodyFailsAt? && fault.step >= n)
  }

  /** How many of the `n` statements of a body end up committed. When the
      rollback throws, the `setAutoCommit(old)` of the `finally` block
      switches auto-commit back on, which commits the statements that ran;
      otherwise the body is committed whole or not at all. */
  function CommittedSteps(fault: TxFault, n: nat): (k: nat)
    ensures k <= n
    ensures !fault.RollbackFails? ==> k == 0 || k == n
    ensures !fault.RollbackFails? ==> (k == n <==> n == 0 || Completes(fault, n) || fault == AfterCommitFails)
    ensures fault.RollbackFails? && fault.step < n ==> k == fault.step
  {
    match fault
    case NoFault => n
    case AfterCommitFails => n
    case BodyFailsAt(step) => if step >= n then n else 0
    case RollbackFails(step) => if step >= n then n else step
    case ConnectFails => 0
    case CommitFails => 0
  }

  /** Whether all of the body's writes are committed, whether or not the
      call then throws. */
  predicate Commits(fault: TxFault, n: nat) {
    CommittedSteps(fault, n) == n
  }

  /** `runInTransaction(body)`. The committed tables are the old ones
      after the statements `CommittedSteps` counts: all of them when the
      commit succeeds, none when the connection, the body or the commit
      throws and the rollback succeeds, and those that ran when the rollback
      throws as well. A `SQLException` from restoring auto-commit or from
      closing comes after the commit: it is rethrown with the writes already
      committed. The connection is the call's own, and it comes back closed,
      with auto-commit restored unless restoring it is what failed. */
  method RunInTransaction(server: Server, body: seq<Stmt>, fault: TxFault)
    returns (r: Status, conn: Connection?)
    modifies server
    ensures r == Done <==> Completes(fault, |body|)
    ensures server.store == ExecAll(old(server.store), body[..CommittedSteps(fault, |body|)])
    ensures r.Failed? ==> r.error == SqlException
    ensures old(server.Valid()) ==> server.Valid()
    ensures conn == null <==> fault == ConnectFails
    ensures conn != null ==> fresh(conn) && conn.server == server && !conn.open
    ensures conn != null && fault != AfterCommitFails ==> conn.autoCommit
  {
    if fault == ConnectFails {
      return Failed(SqlException), null;
    }
    conn := new Connection(server);
    var saved := conn.autoCommit;
    conn.SetAutoCommit(false);
    var i := 0;
    var thrown := false;
    while i < |body| && !thrown
      invariant 0 <= i <= |body|
      invariant conn.server == server && conn.open && !conn.autoCommit
      invariant server.store == old(server.store)
      invariant conn.work == ExecAll(old(server.store), body[..i])
      invariant thrown ==> i < |body| && (fault == BodyFailsAt(i) || fault == RollbackFails(i))
      invariant !thrown ==> forall k :: 0 <= k < i ==> fault != BodyFailsAt(k) && fault != RollbackFails(k)
      decreases |body| - i, !thrown
    {
      if fault == BodyFailsAt(i) || fault == RollbackFails(i) {
        thrown := true;
      } else {
        assert body[..i + 1][..i] == body[..i];
        conn.Execute(body[i]);
        i := i + 1;
      }
    }
    if fault.RollbackFails? {
      if !thrown {
        assert body[..i] == body;
      }
      if old(server.Valid()) {
        ExecAllConsistent(old(server.store), body[..i]);
      }
      conn.SetAutoCommit(saved);
      conn.Close();
      return Failed(SqlException), conn;
    }
    if thrown || fault == CommitFails {
      conn.Rollback();
      r := Failed(SqlException);
      assert body[..0] == [];
    } else {
      assert body[..i] == body;
      conn.Commit();
      r := Done;
      if old(server.Valid()) {
        ExecAllConsistent(old(server.store), body);
      }
    }
    if fault == AfterCommitFails {
      conn.Close();
      r := Failed(SqlException);
    } else {
      conn.SetAutoCommit(saved);
      conn.Close();
    }
  }

  /** One statement on a connection of its own in auto-commit mode, as
      every single-statement DAO write runs: committed at once, or, on a
      `SQLException` from the connection or the statement, nothing. */
  method AutoCommitUpdate(server: Server, st: Stmt, fails: bool) returns (r: Status)
    modifies server
    ensures r == Done <==> !fails
    ensures r.Failed? ==> r.error == SqlException
    ensures server.store == (if fails then old(server.store) else Exec(old(server.store), st))
    ensures old(server.Valid()) ==> server.Valid()
  {
    if fails {
      return Failed(SqlException);
    }
    var conn := new Connection(server);
    conn.Execute(st);
    conn.Close();
    if old(server.Valid()) {
      ExecConsistent(old(server.store), st);
    }
    r := Done;
  }
}

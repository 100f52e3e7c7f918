/**
 * Simulated nested transactions on SQLite, whose BEGIN ... COMMIT /
 * ROLLBACK transactions cannot nest: only the outermost begin, commit or
 * roll-back reaches the database, inner ones are counted and nothing more.
 */
module SQLiteTransactions {
  import opened Wrappers

  const BEGIN: string := "BEGIN TRANSACTION;"
  const COMMIT: string := "COMMIT TRANSACTION;"
  const ROLLBACK: string := "ROLLBACK TRANSACTION;"

  datatype TransactionError =
    | CouldNotOpen      // DBException "Could not open SQLite transaction"
    | CouldNotCommit    // DBException "Could not commit SQLite transaction"
    | CouldNotRollBack  // DBException "Could not roll-back SQLite transaction"

  /** The SQL a start request sends, given the number of transactions already open. */
  function StartSQL(openTransactions: nat): seq<string>
  {
    if openTransactions == 0 then [BEGIN] else []
  }

  /** The SQL a commit or roll-back request sends: `command` only for the outermost transaction. */
  function EndSQL(openTransactions: nat, command: string): seq<string>
  {
    if openTransactions == 1 then [command] else []
  }

  /**
   * The backend as the store sees it: the number of open (simulated)
   * transactions, which the generic record store maintains around these
   * calls, and every SQL command that has been executed.
   */
  class SQLiteRecordStore {
    var openTransactions: nat
    var executed: seq<string>

    constructor ()
      ensures openTransactions == 0 && executed == []
    {
      openTransactions := 0;
      executed := [];
    }

    predicate IsInTransaction()
      reads this
    {
      openTransactions > 0
    }

    /**
     * `doStartTransaction`: BEGIN only when no transaction is open. Whether
     * the database accepts the command is the parameter `executeFails`.
     */
    method DoStartTransaction(executeFails: bool) returns (r: Outcome<TransactionError>)
      modifies this
      ensures openTransactions == old(openTransactions)
      ensures r == (if old(openTransactions) == 0 && executeFails then Fail(CouldNotOpen) else Pass)
      ensures executed == old(executed) + (if r.Pass? then StartSQL(old(openTransactions)) else [])
    {
      r := Pass;
      if !IsInTransaction() {
        if executeFails {
          r := Fail(CouldNotOpen);
        } else {
          executed := executed + [BEGIN];
        }
      }
    }

    /** `doCommitTransaction`: COMMIT only when exactly one transaction is open. */
    method DoCommitTransaction(executeFails: bool) returns (r: Outcome<TransactionError>)
      modifies this
      ensures openTransactions == old(openTransactions)
      ensures r == (if old(openTransactions) == 1 && executeFails then Fail(CouldNotCommit) else Pass)
      ensures executed == old(executed) + (if r.Pass? then EndSQL(old(openTransactions), COMMIT) else [])
    {
      r := Pass;
      if openTransactions == 1 {
        if executeFails {
          r := Fail(CouldNotCommit);
        } else {
          executed := executed + [COMMIT];
        }
      }
    }

    /** `doRollbackTransaction`: ROLLBACK only when exactly one transaction is open. */
    method DoRollbackTransaction(executeFails: bool) returns (r: Outcome<TransactionError>)
      modifies this
      ensures openTransactions == old(openTransactions)
      ensures r == (if old(openTransactions) == 1 && executeFails then Fail(CouldNotRollBack) else Pass)
      ensures executed == old(executed) + (if r.Pass? then EndSQL(old(openTransactions), ROLLBACK) else [])
    {
      r := Pass;
      if openTransactions == 1 {
        if executeFails {
          r := Fail(CouldNotRollBack);
        } else {
          executed := executed + [ROLLBACK];
        }
      }
    }
  }

  // ---------------------------------------------------------------------
  // Nesting
  // ---------------------------------------------------------------------

  datatype Request = Start | Commit | Rollback

  /**
   * A run of requests on a database that accepts every command, with the
   * open-transaction count raised after each start and lowered after each
   * commit or roll-back: the SQL it issues, and the final count.
   */
  function Run(requests: seq<Request>, openTransactions: nat): (r: (seq<string>, nat))
    requires NeverOverCloses(requests, openTransactions)
    decreases |requests|
  {
    if |requests| == 0 then ([], openTransactions)
    else
      match requests[0]
      case Start =>
        var rest := Run(requests[1..], openTransactions + 1);
        (StartSQL(openTransactions) + rest.0, rest.1)
      case Commit =>
        var rest := Run(requests[1..], openTransactions - 1);
        (EndSQL(openTransactions, COMMIT) + rest.0, rest.1)
      case Rollback =>
        var rest := Run(requests[1..], openTransactions - 1);
        (EndSQL(openTransactions, ROLLBACK) + rest.0, rest.1)
  }

  /** No commit or roll-back arrives while no transaction is open. */
  predicate NeverOverCloses(requests: seq<Request>, openTransactions: nat)
    decreases |requests|
  {
    |requests| == 0 ||
    (if requests[0].Start? then NeverOverCloses(requests[1..], openTransactions + 1)
     else openTransactions > 0 && NeverOverCloses(requests[1..], openTransactions - 1))
  }

  /**
   * A flat transaction script: BEGIN, then COMMIT or ROLLBACK, alternating,
   * starting outside a transaction unless `inTransaction`.
   */
  predicate IsFlatScript(sql: seq<string>, inTransaction: bool)
    decreases |sql|
  {
    |sql| == 0 ||
    (if inTransaction then (sql[0] == COMMIT || sql[0] == ROLLBACK) && IsFlatScript(sql[1..], false)
     else sql[0] == BEGIN && IsFlatScript(sql[1..], true))
  }

  /** Whether a flat script leaves a transaction open. */
  function EndsInTransaction(sql: seq<string>, inTransaction: bool): bool
    decreases |sql|
  {
    if |sql| == 0 then inTransaction else EndsInTransaction(sql[1..], !inTransaction)
  }

  /**
   * However the requests nest, what reaches SQLite is a flat script that
   * SQLite accepts, and it leaves a transaction open exactly when the
   * simulated count is positive.
   */
  lemma {:induction false} NestedRequestsIssueFlatScript(requests: seq<Request>, openTransactions: nat)
    requires NeverOverCloses(requests, openTransactions)
    ensures IsFlatScript(Run(requests, openTransactions).0, openTransactions > 0)
    ensures EndsInTransaction(Run(requests, openTransactions).0, openTransactions > 0) == (Run(requests, openTransactions).1 > 0)
    decreases |requests|
  {
    if |requests| > 0 {
      var next := if requests[0].Start? then openTransactions + 1 else openTransactions - 1;
      NestedRequestsIssueFlatScript(requests[1..], next);
      var rest := Run(requests[1..], next).0;
      var own := Run(requests, openTransactions).0;
      if (requests[0].Start? && openTransactions == 0) || (!requests[0].Start? && openTransactions == 1) {
        assert own[1..] == rest;
      } else {
        assert own == rest;
      }
    }
  }

  /** Requests opened and closed k deep from outside any transaction send one BEGIN and one COMMIT. */
  lemma BalancedNestingIssuesOnePair(k: nat)
    requires k >= 1
    ensures NeverOverCloses(Starts(k) + Commits(k), 0)
    ensures Run(Starts(k) + Commits(k), 0) == ([BEGIN, COMMIT], 0)
  {
    RunCommits(k);
    RunStarts(k, 0, Commits(k));
    assert StartSQL(0) + [COMMIT] == [BEGIN, COMMIT];
  }

  function Starts(k: nat): (r: seq<Request>)
    ensures |r| == k && forall i :: 0 <= i < k ==> r[i] == Start
  {
    if k == 0 then [] else [Start] + Starts(k - 1)
  }

  function Commits(k: nat): (r: seq<Request>)
    ensures |r| == k && forall i :: 0 <= i < k ==> r[i] == Commit
  {
    if k == 0 then [] else [Commit] + Commits(k - 1)
  }

  /** `k` starts from depth `d` issue BEGIN only when `d` is 0, and leave depth `d + k`. */
  lemma {:induction false} RunStarts(k: nat, d: nat, tail: seq<Request>)
    requires NeverOverCloses(tail, d + k)
    ensures NeverOverCloses(Starts(k) + tail, d)
    ensures Run(Starts(k) + tail, d) ==
      ((if k > 0 then StartSQL(d) else []) + Run(tail, d + k).0, Run(tail, d + k).1)
    decreases k
  {
    if k == 0 {
      assert Starts(k) + tail == tail;
      assert [] + Run(tail, d).0 == Run(tail, d).0;
    } else {
      var s := Starts(k) + tail;
      assert s[0] == Start;
      assert s[1..] == Starts(k - 1) + tail;
      RunStarts(k - 1, d + 1, tail);
      assert NeverOverCloses(s, d);
      var rest := Run(s[1..], d + 1);
      assert Run(s, d) == (StartSQL(d) + rest.0, rest.1);
      var after := Run(tail, d + k);
      if k > 1 {
        assert StartSQL(d + 1) == [];
        assert rest.0 == [] + after.0 == after.0;
      } else {
        assert Starts(k - 1) + tail == tail;
        assert rest == after;
      }
    }
  }

  /** `k` commits from depth `k` issue exactly one COMMIT and leave depth 0. */
  lemma {:induction false} RunCommits(k: nat)
    ensures NeverOverCloses(Commits(k), k)
    ensures Run(Commits(k), k) == (if k > 0 then [COMMIT] else [], 0)
    decreases k
  {
    if k > 0 {
      var s := Commits(k);
      assert s[0] == Commit;
      assert s[1..] == Commits(k - 1);
      RunCommits(k - 1);
      assert NeverOverCloses(s, k);
      var rest := Run(s[1..], k - 1);
      assert Run(s, k) == (EndSQL(k, COMMIT) + rest.0, rest.1);
      if k == 1 {
        assert rest == ([], 0);
        assert EndSQL(k, COMMIT) + rest.0 == [COMMIT];
      } else {
        assert rest == ([COMMIT], 0);
        assert EndSQL(k, COMMIT) == [];
        assert EndSQL(k, COMMIT) + rest.0 == [COMMIT];
      }
    }
  }
}

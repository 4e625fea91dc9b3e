/** The database proxy as the transaction guard sees it: a dirty flag, the `mod` stamp read when
    the open transaction began, whether a transaction is open, the tables as the open transaction
    sees them and as last committed, and counters of commits and rollbacks. */
module Transaction {
  import opened Storage

  class DbProxy {
    /** Set by every insert, update or delete run through the proxy; cleared by `save`. */
    var mod: bool
    /** `col.mod` as it was when the current transaction began. */
    var lastBeginAt: int
    var inTrx: bool
    /** The tables as seen inside the open transaction. */
    var data: Tables
    /** The tables as last committed: what a rollback returns to. */
    var committed: Tables
    var commits: nat
    var rollbacks: nat

    constructor (init: Tables)
      ensures !mod && lastBeginAt == 0 && !inTrx
      ensures data == init && committed == init
      ensures commits == 0 && rollbacks == 0
    {
      mod, lastBeginAt, inTrx := false, 0, false;
      data, committed := init, init;
      commits, rollbacks := 0, 0;
    }

    /** Open a transaction, remembering the modification stamp it starts from. */
    method Begin()
      modifies this`lastBeginAt, this`inTrx
      ensures lastBeginAt == data.col.mod && inTrx
    {
      lastBeginAt := data.col.mod;
      inTrx := true;
    }

    /** Make the open transaction's tables durable and close it. */
    method Commit()
      modifies this`committed, this`inTrx, this`commits
      ensures committed == data && !inTrx
      ensures commits == old(commits) + 1
    {
      committed := data;
      inTrx := false;
      commits := commits + 1;
    }

    /** Discard the open transaction's changes and close it. */
    method Rollback()
      modifies this`data, this`inTrx, this`rollbacks
      ensures data == committed && !inTrx
      ensures rollbacks == old(rollbacks) + 1
    {
      data := committed;
      inTrx := false;
      rollbacks := rollbacks + 1;
    }
  }
}

/** Transactions: a working copy that commit publishes and that leaving the scope discards. */
module UnitOfWorks {
  import opened Wrappers

  datatype UowError = NotEntered

  /** A session reads committed data until it writes, and its own working copy from then on. */
  datatype Session<S> = Clean | Dirty(working: S)

  class Database<S> {
    var committed: S

    constructor (initial: S)
      ensures committed == initial
    {
      committed := initial;
    }
  }

  class UnitOfWork<S> {
    const database: Database<S>
    var session: Option<Session<S>>

    constructor (database: Database<S>)
      ensures this.database == database && session == None
    {
      this.database := database;
      session := None;
    }

    /** What a statement of this transaction sees. */
    function Current(): S
      requires session.Some?
      reads this, database
    {
      match session.value
      case Clean => database.committed
      case Dirty(working) => working
    }

    method Enter()
      modifies this
      ensures session == Some(Clean)
    {
      session := Some(Clean);
    }

    method Write(state: S)
      requires session.Some?
      modifies this
      ensures session == Some(Dirty(state))
    {
      session := Some(Dirty(state));
    }

    method Commit() returns (r: Result<(), UowError>)
      modifies this, database
      ensures old(session).None? ==>
                r == Failure(NotEntered) && session == old(session) && database.committed == old(database.committed)
      ensures old(session).Some? ==>
                r == Success(()) && session == Some(Clean) && database.committed == old(Current())
    {
      if session.None? {
        return Failure(NotEntered);
      }
      database.committed := Current();
      session := Some(Clean);
      r := Success(());
    }

    method Rollback() returns (r: Result<(), UowError>)
      modifies this
      ensures old(session).None? ==> r == Failure(NotEntered) && session == old(session)
      ensures old(session).Some? ==> r == Success(()) && session == Some(Clean)
    {
      if session.None? {
        return Failure(NotEntered);
      }
      session := Some(Clean);
      r := Success(());
    }

    /** Leaving the scope rolls back whatever was not committed, and does nothing if never entered. */
    method Exit()
      modifies this
      ensures session == if old(session).None? then None else Some(Clean)
    {
      if session.Some? {
        session := Some(Clean);
      }
    }
  }
}

/** A database session: the committed database, and the copy that one transaction works on. */
module Sessions {
  import opened NetworkDb

  class Session {
    var committed: Db
    var work: Db

    constructor (db: Db)
      ensures committed == work == db
    {
      committed, work := db, db;
    }

    method Commit()
      modifies this`committed
      ensures committed == work
    {
      committed := work;
    }

    method Rollback()
      modifies this`work
      ensures work == committed
    {
      work := committed;
    }
  }
}

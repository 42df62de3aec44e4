/** The database interface the deployer drives. The database itself is outside the
    model: every request is appended to a log, and what the database answers is
    given by a fixed function of the requests made before and the request itself. */
module Dbi {
  import opened Wrappers
  import opened Errors
  import opened MetaModel

  /** One request to the database interface, with its arguments. */
  datatype Call =
    | DeleteDatabase(database: string)
    | GetIdentifiedObject(database: string, name: string)
    | DropIdentifiedObject(obj: IdentifiedObject, ignoreErrors: bool)
    | RenameIdentifiedObject(obj: IdentifiedObject, newName: string, ignoreErrors: bool)
    | DeployStatements(statements: seq<string>)

  /** The behaviour of the database: the answer to an object lookup, and the outcome
      of every other request, given the requests made so far. */
  datatype Oracle = Oracle(
    lookup: (seq<Call>, string, string) -> Result<Option<IdentifiedObject>, Error>,
    outcome: (seq<Call>, Call) -> Result<(), Error>)

  class Database {
    const oracle: Oracle
    var log: seq<Call>

    constructor (oracle: Oracle)
      ensures this.oracle == oracle && log == []
    {
      this.oracle := oracle;
      log := [];
    }

    /** `delete_database(db)`. */
    method DeleteDatabase(database: string) returns (r: Result<(), Error>)
      modifies this
      ensures log == old(log) + [Call.DeleteDatabase(database)]
      ensures r == oracle.outcome(old(log), Call.DeleteDatabase(database))
    {
      r := oracle.outcome(log, Call.DeleteDatabase(database));
      log := log + [Call.DeleteDatabase(database)];
    }

    /** `get_identified_object(db, name)`: the object, or `None` when it does not exist. */
    method GetIdentifiedObject(database: string, name: string) returns (r: Result<Option<IdentifiedObject>, Error>)
      modifies this
      ensures log == old(log) + [Call.GetIdentifiedObject(database, name)]
      ensures r == oracle.lookup(old(log), database, name)
    {
      r := oracle.lookup(log, database, name);
      log := log + [Call.GetIdentifiedObject(database, name)];
    }

    /** `drop_identified_object(obj, ignore_errors=...)`. */
    method DropIdentifiedObject(obj: IdentifiedObject, ignoreErrors: bool) returns (r: Result<(), Error>)
      modifies this
      ensures log == old(log) + [Call.DropIdentifiedObject(obj, ignoreErrors)]
      ensures r == oracle.outcome(old(log), Call.DropIdentifiedObject(obj, ignoreErrors))
    {
      r := oracle.outcome(log, Call.DropIdentifiedObject(obj, ignoreErrors));
      log := log + [Call.DropIdentifiedObject(obj, ignoreErrors)];
    }

    /** `rename_identified_object(obj, new_name, ignore_errors=...)`. */
    method RenameIdentifiedObject(obj: IdentifiedObject, newName: string, ignoreErrors: bool) returns (r: Result<(), Error>)
      modifies this
      ensures log == old(log) + [Call.RenameIdentifiedObject(obj, newName, ignoreErrors)]
      ensures r == oracle.outcome(old(log), Call.RenameIdentifiedObject(obj, newName, ignoreErrors))
    {
      r := oracle.outcome(log, Call.RenameIdentifiedObject(obj, newName, ignoreErrors));
      log := log + [Call.RenameIdentifiedObject(obj, newName, ignoreErrors)];
    }

    /** `deploy_statements(statements)`. */
    method DeployStatements(statements: seq<string>) returns (r: Result<(), Error>)
      modifies this
      ensures log == old(log) + [Call.DeployStatements(statements)]
      ensures r == oracle.outcome(old(log), Call.DeployStatements(statements))
    {
      r := oracle.outcome(log, Call.DeployStatements(statements));
      log := log + [Call.DeployStatements(statements)];
    }
  }
}

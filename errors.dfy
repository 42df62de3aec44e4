/** The exceptions the deployment engine raises, as values. */
module Errors {

  /** The reasons `DParsingError` is raised by the statement tokenizer; `line` is the
      line counter at the moment of the error. */
  datatype ParseFailure =
    | NestedCommentStart(line: nat)
    | CommentEndWithoutStart(line: nat)
    | EmptyStatement(line: nat, stmtCount: nat, index: nat)
    | UnterminatedComment(line: nat)
    | UnterminatedString(line: nat)
  {
    function Line(): nat
    {
      match this
      case NestedCommentStart(l) => l
      case CommentEndWithoutStart(l) => l
      case EmptyStatement(l, _, _) => l
      case UnterminatedComment(l) => l
      case UnterminatedString(l) => l
    }
  }

  /** One value per exception class the core raises or lets through. */
  datatype Error =
    | ParsingError(failure: ParseFailure)            // exc.DParsingError
    | OperationsError(message: string)               // exc.DOperationsError
    | ConfigError(message: string)                   // exc.DConfigError
    | InvalidBatch(message: string)                  // exc.DDeployerInvalidBatch
    | StatementError(statement: string, message: string) // exc.DBStatementError
    | CannotConnect(message: string)                 // exc.DBCannotConnect
    | NotImplemented(message: string)                // NotImplementedError
    | KeyError(key: string)                          // KeyError
    | GitError(message: string)                      // exc.DGitError
    | TypeMismatch(message: string)                  // TypeError
    | DatabaseError(message: string)                 // any other error of the database interface
}

/** Values shared by every driver: optional values, the Python exceptions the
    drivers raise, and the result of an operation that may raise one. */
module Base {

  datatype Option<+T> = None | Some(value: T)

  /** The exceptions (and the one early `return 1`) the modelled scripts can end with. */
  datatype Error =
    | FileNotFound(path: string)            // os.listdir on a path that does not exist
    | NotADirectory(path: string)           // os.listdir on an existing regular file
    | NoAnatomicalFile                      // ValueError raised by get_best_anat on an empty list
    | AmbiguousAnatomicalFile(marked: nat)  // AssertionError in get_best_anat: 0 or >= 2 "yGC" paths
    | NoDataToProcess                       // RuntimeError("No data to process!")
    | DuplicateSubjects(ids: seq<string>)   // RuntimeError: several lithium images for one subject
    | EmptyColumn                           // IndexError: item[0] of an empty list in a preview
    | ColumnLengthMismatch                  // the `return 1` after the column-length check
    | PathTooShallow(path: string)          // IndexError / ValueError: too few path components
    | MissingMdFile(path: string)           // AssertionError "No MD file."
    | CenterNotAllowed(id: string, center: int)  // AssertionError on the center allow-list
    | NotExactlyOneRow(id: string)          // ValueError raised by pandas `.item()`
    | NoSuchKey(key: string)                // KeyError
    | NoMatchingRow                         // IndexError on `.values[0]` of an empty selection
    | NotAnInteger(text: string)            // ValueError raised by int()
    | NoneInJoin                            // TypeError: " ".join over a list holding None
    | UnboundVariable(name: string)         // UnboundLocalError: a local read before any assignment
    | TooFewFields(text: string)            // IndexError: `text.split(sep)[k]` with too few fields

  datatype Result<+T> = Ok(value: T) | Err(error: Error)
}

/** Option and Result, and the exceptions the KBP library raises, one
    constructor per cause, so that every error path of kbputils is a value. */
module Wrappers {

  datatype Option<+T> = None | Some(value: T)

  /** Why a parse or a conversion fails. The Python exception class each
      constructor stands for is given beside it. */
  datatype Error =
    | BadInt(text: string)                // ValueError: int() of a non-numeric field
    | NoSuchLine(index: int)              // IndexError: reading a line past the end
    | TooFewFields(count: nat)            // IndexError: a split line has too few fields
    | IndexOutOfRange(index: int)         // IndexError: a string or list index past either end
    | MissingArgument                     // TypeError: a record built from too few fields
    | WrongFieldType                      // TypeError: a field of the wrong type
    | WrongArgCount(count: nat)           // TypeError: a page built from the wrong number of transitions
    | NotFound(marker: string)            // ValueError: list.index found no terminator line
    | MissingSections(names: seq<string>) // ValueError: required sections absent at the end of a parse
    | Unsynced(status: string)            // NotImplementedError: track status is not "1"
    | KeyErr(key: string)                 // KeyError: a missing dictionary key
    | BadKey(index: int)                  // KeyError: an integer key out of range
    | KeyNone                             // KeyError: None, a continuation line before any key line
    | BadPalette                          // AssertionError: a palette that is not 16 three-digit codes
    | MixedColors                         // TypeError: colour fields of mixed kinds
    | AlreadyResolved                     // NameError: the already-resolved branch of resolve_colors
    | MissingAttribute(name: string)      // AttributeError: a section read before it was parsed
    | NotIterable                         // TypeError: a palette index where a colour code is needed
    | EmptySequence                       // ValueError: min() or max() of nothing

  datatype Result<+T> = Ok(value: T) | Err(error: Error) {
    predicate IsFailure() {
      Err?
    }

    function PropagateFailure<U>(): Result<U>
      requires Err?
    {
      Err(error)
    }

    function Extract(): T
      requires Ok?
    {
      value
    }
  }
}

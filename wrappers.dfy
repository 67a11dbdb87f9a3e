/** Option and Result, plus the failures the statsdb code raises (its QCAnalysisException
    messages and the unchecked Java exceptions some inputs provoke). */
module Wrappers {

  datatype Option<T> = None | Some(value: T)

  /** A Java String reference: None stands for null. */
  type JString = Option<string>

  datatype Error =
    | NullRange                         // "Null range supplied to range parse."
    | InvalidRange(text: string)        // "Invalid range string '...'. Needs to be of the form 'a-b'"
    | NullOrEmptyKey                    // "A partition/position value cannot have a null or empty key"
    | NullOrEmptyValue                  // "... cannot have a null or empty value"
    | InvalidPosition(position: JString) // "Invalid numerical position '...'"
    | NumberFormat(text: string)        // NumberFormatException from Long.parseLong
    | NoSuchProperty(id: int)           // "No such property on analysis: <id>"
    | StringIndexOutOfBounds            // charAt / deleteCharAt outside the string
    | ArrayIndexOutOfBounds             // an array read past its length
    | ListIndexOutOfBounds              // List.get past its size
    | MissingHeaderRow                  // "Something went wrong with header row parsing. Failing..."
    | MalformedOverrepresentedSequence  // "Malformed overrepresented sequence line"
    | MalformedOverrepresentedKmer      // "Malformed overrepresented kmer line"
    | BadModuleStart                    // "Module block to parse doesn't start with a suitable module start string"
    | NoSuchParser(name: string)        // NoSuchMethodException from the reflective dispatch
    | HandlerFailed(cause: Error)       // InvocationTargetException wrapping a module handler's failure
    | InvalidHeaders                    // "Invalid headers found"

  datatype Result<T> = Ok(value: T) | Err(error: Error)
}

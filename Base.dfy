/** Wrappers and small types shared by every module of the model. */
module Base {

  datatype Option<+T> = None | Some(value: T)

  /** What makes a generation pass throw in the plugin. */
  datatype Failure =
    | SyntaxError(document: string)   // JSON.parse rejected a present document
    | TypeError(reason: string)       // the JavaScript runtime rejected an operation
    | ReadError(path: string)         // readFileSync failed on a walked file
    | StatError(path: string)         // statSync failed on a listed entry

  datatype Result<+T> = Ok(value: T) | Err(error: Failure) {
    predicate IsFailure() {
      Err?
    }

    function PropagateFailure<U>(): Result<U>
      requires Err?
    {
      Err(error)
    }

    function Extract(): T
      requires Ok?
    {
      value
    }
  }

  /** The output language of the host project: "ts" when src/index.ts exists, else "js". */
  datatype Ext = TS | JS {
    function Name(): string {
      match this
      case TS => "ts"
      case JS => "js"
    }
  }
}

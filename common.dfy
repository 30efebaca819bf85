/** Failure-compatible wrappers and the exceptions the two pipelines can raise. */
module Common {

  import opened Text

  datatype Option<+T> = None | Some(value: T)

  datatype Result<+T, +E> = Success(value: T) | Failure(error: E)

  /** The result of an action that returns nothing but may raise. */
  datatype Outcome<+E> = Pass | Fail(error: E)

  /** Every exception the modelled code can let escape, by its cause. */
  datatype Error =
    | EmptyArgMax                       // ValueError from max() over an empty list
    | NothingToConcat                   // ValueError from pd.concat([])
    | MissingColumn(name: string)       // KeyError when one column is selected
    | MissingColumns(names: seq<string>) // KeyError when a list of columns is selected
    | MixedLabels(withMissing: bool)    // TypeError from LabelEncoder on mixed str/int labels, NaN among them or not
    | UnboundLocal(variable: string)    // UnboundLocalError
    | OsError(text: string)             // OSError from open(); text is the OS's description
    | LoadFailed(text: string)          // any failure of pd.read_csv
    | TrainFailed(text: string)         // any failure of the split, the fit or the metrics

  /** Single-quoted, as Python's repr of a plain string. */
  function Quote(s: string): string
  {
    "'" + s + "'"
  }

  function QuoteAll(names: seq<string>): seq<string>
  {
    if names == [] then [] else QuoteAll(names[..|names| - 1]) + [Quote(names[|names| - 1])]
  }

  /** scikit-learn's text for labels of mixed types; it ends with the sorted names of the
      label types, where NaN is a float. */
  const MixedLabelsPrefix: string :=
    "Encoders require their input argument must be uniformly strings or numbers. Got "

  /** What str(e) gives for each exception: the text the error log records. */
  function Message(e: Error): (r: string)
    ensures e.OsError? || e.LoadFailed? || e.TrainFailed? ==> r == e.text
    ensures !(e.OsError? || e.LoadFailed? || e.TrainFailed?) ==> r != []
  {
    match e
    case EmptyArgMax => "max() iterable argument is empty"
    case NothingToConcat => "No objects to concatenate"
    case MissingColumn(name) => Quote(name)
    case MissingColumns(names) => "\"[" + JoinWith(", ", QuoteAll(names)) + "] not in index\""
    case MixedLabels(withMissing) =>
      MixedLabelsPrefix + (if withMissing then "['float', 'int', 'str']" else "['int', 'str']")
    case UnboundLocal(v) =>
      "cannot access local variable " + Quote(v) + " where it is not associated with a value"
    case OsError(text) => text
    case LoadFailed(text) => text
    case TrainFailed(text) => text
  }
}

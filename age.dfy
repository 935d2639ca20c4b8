/**
 * The age estimation service: run the regression learner on the face picture and
 * phrase its prediction as "Predicted age: N years", falling back to the prediction
 * as text when it is not a number, and to an error message when anything raises.
 */
module Age {
  import opened Wrappers
  import opened Strings
  import opened Intake

  /** The part of a Python value the formatting looks at. */
  datatype PyValue =
    | PyStr(s: string)              // a `str`
    | PyNum(x: real)                // a number
    | PySized(items: seq<PyValue>)  // a non-string value with a length: a list, tuple or tensor
    | PyOther(tag: nat)             // any other value

  /** The loaded learner: `pred, *_ = learn.predict(img)`, which may raise. */
  datatype Regressor = Regressor(infer: Image -> Result<PyValue>)

  /** The service's fixed surroundings. */
  datatype Env = Env(
    lib: Libraries,
    toFloat: PyValue -> Option<real>,   // `float(x)`, None when it raises
    repr: PyValue -> string,            // `str(x)` for a value that is not a `str`
    fmt1: real -> string)               // `format(x, ".1f")`

  /** What `predict` returns. */
  datatype Output =
    | NoneOut          // `None`
    | EmptyList        // `[]`
    | Message(text: string)

  const AgePrefix: string := "Predicted age: "
  const AgeSuffix: string := " years"
  const ErrorPrefix: string := "Error processing image: "

  /** `str(x)`: a string is its own text. */
  function PyStrOf(env: Env, v: PyValue): (t: string)
    ensures v.PyStr? ==> t == v.s
  {
    if v.PyStr? then v.s else env.repr(v)
  }

  /** The candidate number: the first element of a sized non-string value, else the value; None when `pred[0]` raises. */
  function Unwrap(pred: PyValue): (r: Option<PyValue>)
    ensures pred.PySized? ==> (r.Some? <==> pred.items != [])
    ensures pred.PySized? && pred.items != [] ==> r == Some(pred.items[0])
    ensures !pred.PySized? ==> r == Some(pred)
  {
    if pred.PySized? then (if |pred.items| > 0 then Some(pred.items[0]) else None)
    else Some(pred)
  }

  /** The age, when unwrapping and `float` both succeed. */
  function Coerce(env: Env, pred: PyValue): Option<real> {
    match Unwrap(pred)
    case None => None
    case Some(candidate) => env.toFloat(candidate)
  }

  /** The inner `try`: the age sentence, or `str(pred)` when anything in it raises. */
  function FormatPrediction(env: Env, pred: PyValue): (out: string)
    ensures Coerce(env, pred).Some? ==> out == AgePrefix + env.fmt1(Coerce(env, pred).value) + AgeSuffix
    ensures Coerce(env, pred).None? ==> out == PyStrOf(env, pred)
  {
    match Coerce(env, pred)
    case Some(ageVal) => AgePrefix + env.fmt1(ageVal) + AgeSuffix
    case None => PyStrOf(env, pred)
  }

  /** `predict`. */
  function Predict(env: Env, model: Option<Regressor>, input: Input): (r: Output)
    ensures model.None? ==> r == EmptyList
    ensures model.Some? ==> (r == NoneOut <==> input.NoInput?)
  {
    if model.None? then EmptyList
    else
      match TakeInput(env.lib, input)
      case ReturnNone => NoneOut
      case ReturnEmpty => EmptyList
      case Raised(e) => Message(ErrorPrefix + e)
      case Ready(img) =>
        match model.value.infer(img)
        case Err(e) => Message(ErrorPrefix + e)
        case Ok(pred) => Message(FormatPrediction(env, pred))
  }

  // ---------------------------------------------------------------------------
  // Properties of the formatting

  /** A string prediction is coerced whole, never by its first character. */
  lemma StringNotUnwrapped(env: Env, s: string)
    ensures Coerce(env, PyStr(s)) == env.toFloat(PyStr(s))
  {
  }

  /** A string that is not a number, such as "unknown", is returned exactly as it is. */
  lemma NonNumericStringVerbatim(env: Env, s: string)
    requires env.toFloat(PyStr(s)).None?
    ensures FormatPrediction(env, PyStr(s)) == s
  {
  }

  /** An empty sized prediction makes `pred[0]` raise, and the text of the prediction is returned. */
  lemma EmptyPredictionFallsBack(env: Env, items: seq<PyValue>)
    requires items == []
    ensures FormatPrediction(env, PySized(items)) == env.repr(PySized(items))
  {
  }

  /** A sized prediction is read through its first element only. */
  lemma SizedUsesFirst(env: Env, first: PyValue, rest: seq<PyValue>)
    ensures Coerce(env, PySized([first] + rest)) == env.toFloat(first)
  {
  }

  /** A number wrapped in a one-element sequence is phrased exactly as the bare number. */
  lemma SingletonLikeValue(env: Env, v: PyValue)
    requires !v.PySized? && env.toFloat(v).Some?
    ensures FormatPrediction(env, PySized([v])) == FormatPrediction(env, v)
  {
  }

  /** A prediction that passes inference is always phrased as text: formatting never raises. */
  lemma InferenceGivesText(env: Env, m: Regressor, input: Input)
    requires TakeInput(env.lib, input).Ready? && m.infer(TakeInput(env.lib, input).image).Ok?
    ensures Predict(env, Some(m), input) == Message(FormatPrediction(env, m.infer(TakeInput(env.lib, input).image).value))
  {
  }

  // ---------------------------------------------------------------------------
  // Properties of the request handling

  /** `None` yields None; unsupported values and strings that are not data URLs yield `[]`. */
  lemma DispatchEarlyReturns(env: Env, m: Regressor, input: Input)
    ensures input.NoInput? ==> Predict(env, Some(m), input) == NoneOut
    ensures input.OtherValue? ==> Predict(env, Some(m), input) == EmptyList
    ensures input.Text? && !StartsWith(input.s, DataImagePrefix) ==> Predict(env, Some(m), input) == EmptyList
  {
  }

  /** Once the input is accepted, the answer is always a message: an age, the raw prediction, or an error. */
  lemma AcceptedInputGivesMessage(env: Env, m: Regressor, input: Input)
    ensures Predict(env, Some(m), input).Message? <==> TakeInput(env.lib, input).Ready? || TakeInput(env.lib, input).Raised?
  {
  }

  /** A decoding or inference exception becomes "Error processing image: " and the exception's text. */
  lemma ErrorsBecomeMessages(env: Env, m: Regressor, input: Input)
    ensures TakeInput(env.lib, input).Raised? ==>
      Predict(env, Some(m), input) == Message(ErrorPrefix + TakeInput(env.lib, input).error)
    ensures TakeInput(env.lib, input).Ready? && m.infer(TakeInput(env.lib, input).image).Err? ==>
      Predict(env, Some(m), input) == Message(ErrorPrefix + m.infer(TakeInput(env.lib, input).image).message)
  {
  }

  /** A data URL without a comma gets the unpacking error message. */
  lemma NoCommaMessage(env: Env, m: Regressor, s: string)
    requires StartsWith(s, DataImagePrefix) && ',' !in s
    ensures Predict(env, Some(m), Text(s)) == Message(ErrorPrefix + UnpackError)
  {
    NoCommaRaises(env.lib, s);
  }
}

/** Small wrappers shared by every module of the model. */
module Base {

  /** A value that may be absent; also stands for Python's `None`. */
  datatype Option<+T> = None | Some(value: T)

  /** The result of a Python expression that either yields a value or raises;
      `message` is `str(e)` of the exception raised. */
  datatype Result<+T> = Ok(value: T) | Raise(message: string)

  /** The result of a Slack Web API call that returns nothing the model uses;
      `Failed` carries `str(e)` of the `SlackApiError` it raised. */
  datatype Outcome = Done | Failed(message: string)

  /** Python's `f"{x}"` of an optional text column: `None` prints as "None". */
  function ShowOpt(o: Option<string>): (r: string)
    ensures o.Some? ==> r == o.value
    ensures o.None? ==> r == "None"
  {
    match o
    case Some(s) => s
    case None => "None"
  }
}

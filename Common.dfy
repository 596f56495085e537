/** Value types shared by the component models: an optional value, and the
    outcome of a Python statement that may fail an `assert`. */
module Common {

  /** A value that may be absent. A private attribute that was never assigned
      is `None`: reading it through its getter would raise AttributeError. */
  datatype Option<+T> = None | Some(value: T)

  /** The exception a failing Python `assert cond, msg` raises, with its message. */
  datatype AssertionError = AssertionError(message: string)

  /** How a Python statement (a setter call, an `__init__`) ends: normally, or
      by raising an AssertionError. */
  datatype Outcome = Pass | Fail(error: AssertionError)

  /** `assert cond, message`. */
  function Assert(cond: bool, message: string): (r: Outcome)
    ensures r.Pass? <==> cond
    ensures r.Fail? ==> r.error.message == message
  {
    if cond then Pass else Fail(AssertionError(message))
  }

  /** The registration `pulumi.ComponentResource.__init__(type, name, ...)`
      makes: the component's type token and logical name. */
  datatype Registration = Registration(typeToken: string, name: string)

  /** A value, or the AssertionError raised while computing it. */
  datatype Result<+T> = Ok(value: T) | Err(error: AssertionError)
}

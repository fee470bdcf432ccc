/** The `Result` type of the frontend (frontend/src/utils.ts): a value tagged `ok: true`,
    or an error tagged `ok: false`. `ok(d)` and `err(e)` are the two constructors. */
module TsResult {
  import opened Base

  datatype Result<T, E> = Ok(data: T) | Err(error: E)

  /** `unwrap`: the data of an ok result; otherwise throws an `Error` whose message is
      the error converted to a string by `show`. */
  function Unwrap<T, E>(r: Result<T, E>, show: E -> string): (o: Throws<T>)
    ensures o.Returns? <==> r.Ok?
    ensures r.Ok? ==> o.value == r.data
    ensures r.Err? ==> o.message == show(r.error)
  {
    match r
    case Ok(d) => Returns(d)
    case Err(e) => Raises(show(e))
  }
}

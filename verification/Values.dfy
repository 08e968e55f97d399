/** Decoded JSON values and the library functions whose results the model leaves open. */
module Values {

  datatype Option<+T> = None | Some(value: T)

  datatype Result<+T> = Ok(value: T) | Err(message: string)

  /** A decoded JSON value; `Null` is also Go's nil interface. */
  datatype Value =
    | Null
    | Bool(b: bool)
    | Num(n: real)
    | Str(s: string)
    | Arr(items: seq<Value>)
    | Obj(members: map<string, Value>)

  type Payload = map<string, Value>

  /** Everything the gateway asks of libraries: rendering of numbers and composites, regular
      expressions, number scanning, HMAC and SHA-256. Theorems hold for every choice. */
  datatype Host = Host(
    render: Value -> string,
    compiles: string -> bool,
    matches: (string, string) -> bool,
    scan: string -> Option<real>,
    mac: (string, string) -> string,
    sha: string -> string)

  /** `fmt.Sprint` of a decoded value. */
  function Sprint(h: Host, v: Value): string {
    match v
    case Str(s) => s
    case Bool(b) => if b then "true" else "false"
    case Null => "<nil>"
    case _ => h.render(v)
  }
}

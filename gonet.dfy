/**
 * The values the dialers hand back: an opened connection, of which only its
 * identity matters here, and the Go `error` values the dialers build.
 */
module GoNet {
  import opened Wrappers
  import Strconv
  import NetAddr

  /** A `net.Conn`, known only by identity. */
  datatype Conn = Conn(id: nat)

  /** The errors the dialers create or pass on. */
  datatype Error =
    | Message(text: string)                               // errors.New
    | UnknownNetwork(network: string)                     // net.UnknownNetworkError
    | Addr(addr: NetAddr.AddrError)                       // *net.AddrError of SplitHostPort
    | Num(num: Strconv.NumError)                          // *strconv.NumError of Atoi
    | Wrapped(context: string, quoted: string, inner: Error)  // fmt.Errorf("<context> %q: %w", quoted, inner)
    | Joined(errs: seq<Error>)                            // errors.Join

  /** `errors.Join` of non-nil errors: nil when there are none. */
  function Join(errs: seq<Error>): Option<Error> {
    if |errs| == 0 then None else Some(Joined(errs))
  }

  /** What a dialer answers for one dial: a connection or an error. */
  type DialResult = Result<Conn, Error>
}

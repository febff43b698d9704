/** The types every client shares: the PC record, the error kinds and the
    result alias of the client contract. */
module Interface {
  import opened Http

  datatype Option<+T> = None | Some(value: T)

  datatype Result<+T, +E> = Ok(value: T) | Err(error: E)

  /** A hardware address: exactly six octets. */
  type Mac6 = s: seq<bv8> | |s| == 6 witness [0, 0, 0, 0, 0, 0]

  /** A PC registered with the router: exactly a name and a hardware address. */
  datatype PcInfo = PcInfo(name: string, macAddress: Mac6)

  /** The five ways a client operation fails. */
  datatype Error =
    | Init                          // the HTTP client could not be built
    | Parsing                       // a list line or address did not parse
    | Auth                          // rejected credentials or no session
    | Server                        // the router reported a failure
    | Reqwest(cause: TransportError) // the transport or the decoder failed

  /** Every client operation yields its value or exactly one error. */
  type WolResult<T> = Result<T, Error>
}

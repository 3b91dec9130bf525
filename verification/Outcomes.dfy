/** The failure values the protocol layers hand back to their callers. */
module Outcomes {

  datatype Option<+T> = None | Some(value: T) {
    function GetOr(default: T): T { if Some? then value else default }
  }

  datatype Error =
    | BufferTooSmall
    | MessageTooShort
    | BadHeader
    | UnsupportedVersion
    | Replay
    | SequenceTooFarAhead
    | Decrypt
    | NonceExhausted
    | PayloadTooLarge
    | WindowFull
    | ReliabilityUnsupported
    | Decompress
    | SendFailed

  datatype Result<+T> = Ok(value: T) | Err(error: Error)
}

/** Result codes shared by every component, and the optional value. */
module Codes {

  datatype Option<+T> = None | Some(value: T)

  /** The error codes the modelled handlers branch on; Other stands for every further code. */
  datatype Code =
    | Success
    | ChannelStopped
    | ServiceStopped
    | ChannelTimeout
    | BadStream
    | NotFound
    | OperationFailed
    | AddressInUse
    | AddressBlocked
    | AcceptFailed
    | ResolveFailed
    | PeerThrottling
    | FileSystem
    | Other(n: nat)

  /** The two codes that mean "the channel or the service is stopping". */
  predicate IsStop(ec: Code) {
    ec.ChannelStopped? || ec.ServiceStopped?
  }

  function Min(a: int, b: int): int {
    if a < b then a else b
  }

  function Max(a: int, b: int): int {
    if a < b then b else a
  }
}

/**
 * The error taxonomy of the Bitcoin burnchain client (src/burnchains/bitcoin/mod.rs):
 * a closed enum with `description`, `cause` and `Display`.
 */
module BitcoinError {
  import opened Wrappers

  /** A `std::io::Error`. It is foreign to the model: only its description and its display text matter. */
  datatype IoError = IoError(description: string, text: string)

  /** An error of the bitcoin library's serializer, foreign in the same way. */
  datatype SerializeError = SerializeError(description: string, text: string)

  /** The network error enum. Three variants wrap an inner error; the other eight are units. */
  datatype Error =
    | Io(io: IoError)
    | SocketMutexPoisoned
    | SocketNotConnectedToPeer
    | SerializationError(ser: SerializeError)
    | InvalidMessage
    | InvalidReply
    | InvalidMagic
    | UnhandledMessage
    | NotImplemented
    | ConnectionBroken
    | FilesystemError(fs: IoError)

  /** The inner error that `cause` hands back, as a trait object of either foreign type. */
  datatype Inner = IoCause(io: IoError) | SerializeCause(ser: SerializeError)

  /** The variants that carry an inner error. */
  predicate Wraps(e: Error) {
    e.Io? || e.SerializationError? || e.FilesystemError?
  }

  /** The eight unit variants, each once. */
  const UnitVariants: seq<Error> := [SocketMutexPoisoned, SocketNotConnectedToPeer, InvalidMessage,
    InvalidReply, InvalidMagic, UnhandledMessage, NotImplemented, ConnectionBroken]

  /** `error::Error::cause`: the wrapped error for the three wrapping variants, nothing otherwise. */
  function Cause(e: Error): (r: Option<Inner>)
    ensures r.Some? <==> Wraps(e)
    ensures e.Io? ==> r == Some(IoCause(e.io))
    ensures e.SerializationError? ==> r == Some(SerializeCause(e.ser))
    ensures e.FilesystemError? ==> r == Some(IoCause(e.fs))
  {
    match e
    case Io(io) => Some(IoCause(io))
    case SerializationError(ser) => Some(SerializeCause(ser))
    case FilesystemError(fs) => Some(IoCause(fs))
    case _ => None
  }

  /** `error::Error::description`: a fixed text per unit variant, the inner error's description otherwise. */
  function Description(e: Error): (r: string)
    ensures e.Io? ==> r == e.io.description
    ensures e.SerializationError? ==> r == e.ser.description
    ensures e.FilesystemError? ==> r == e.fs.description
  {
    match e
    case Io(io) => io.description
    case SocketMutexPoisoned => "socket mutex was poisoned"
    case SocketNotConnectedToPeer => "not connected to peer"
    case SerializationError(ser) => ser.description
    case InvalidMessage => "invalid message to send"
    case InvalidReply => "invalid reply for given message"
    case InvalidMagic => "invalid network magic"
    case UnhandledMessage => "unable to handle message"
    case NotImplemented => "functionality not implemented"
    case ConnectionBroken => "connection to peer node is broken"
    case FilesystemError(fs) => fs.description
  }

  /** `fmt::Display::fmt`: the text written to the formatter. */
  function Display(e: Error): (r: string)
    ensures !Wraps(e) ==> r == Description(e)
    ensures e.Io? ==> r == e.io.text
    ensures e.SerializationError? ==> r == e.ser.text
    ensures e.FilesystemError? ==> r == e.fs.text
  {
    match e
    case Io(io) => io.text
    case SerializationError(ser) => ser.text
    case FilesystemError(fs) => fs.text
    case _ => Description(e)
  }

  /** UnitVariants lists exactly the variants that wrap nothing. */
  lemma UnitVariantsAreTheUnits(e: Error)
    ensures e in UnitVariants <==> !Wraps(e)
  {
  }

  /** The eight fixed descriptions are pairwise distinct, so a unit variant is recoverable from its text. */
  lemma UnitDescriptionsDistinct(i: nat, j: nat)
    requires i < |UnitVariants| && j < |UnitVariants| && i != j
    ensures UnitVariants[i] != UnitVariants[j]
    ensures Description(UnitVariants[i]) != Description(UnitVariants[j])
  {
  }

  /** Two different unit variants never print the same text. */
  lemma UnitDisplayInjective(a: Error, b: Error)
    requires !Wraps(a) && !Wraps(b)
    requires Display(a) == Display(b)
    ensures a == b
  {
  }
}

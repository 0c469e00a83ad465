// The command and error tables both peers share.
module Tables {
  datatype Option<+T> = None | Some(value: T)

  datatype Error =
    | UnknownCodeError
    | UnknownCommandError
    | GeneralServerError
    | GeneralClientError
    | TaskNotCompleteError
    | PubKeyMismatchError
    | ClientNotFoundError
    | ReceiverNotFound
    | ReceiverNotAvailable
    | NoAvailableAddCodeError
    | ExistingConnError
    | PeerUnavailableError
  {
    // The ErrCode field of the entry
    function Code(): nat {
      match this
      case UnknownCodeError => 1
      case UnknownCommandError => 2
      case GeneralServerError => 3
      case GeneralClientError => 4
      case TaskNotCompleteError => 5
      case PubKeyMismatchError => 6
      case ClientNotFoundError => 7
      case ReceiverNotFound => 8
      case ReceiverNotAvailable => 9
      case NoAvailableAddCodeError => 10
      case ExistingConnError => 11
      case PeerUnavailableError => 12
    }
  }

  // ErrorCodes, an array of 256 pointers: entry 0 is nil, and so is every entry
  // past the last one listed.
  function ErrorCodes(code: nat): Option<Error>
    requires code < 256
  {
    if code == 1 then Some(UnknownCodeError)
    else if code == 2 then Some(UnknownCommandError)
    else if code == 3 then Some(GeneralServerError)
    else if code == 4 then Some(GeneralClientError)
    else if code == 5 then Some(TaskNotCompleteError)
    else if code == 6 then Some(PubKeyMismatchError)
    else if code == 7 then Some(ClientNotFoundError)
    else if code == 8 then Some(ReceiverNotFound)
    else if code == 9 then Some(ReceiverNotAvailable)
    else if code == 10 then Some(NoAvailableAddCodeError)
    else if code == 11 then Some(ExistingConnError)
    else if code == 12 then Some(PeerUnavailableError)
    else None
  }

  // The table and the ErrCode fields are inverse to each other, and the empty
  // entries are exactly 0 and everything above 12.
  lemma ErrorTableInverse(code: nat, e: Error)
    requires code < 256
    ensures ErrorCodes(code) == Some(e) <==> code == e.Code()
    ensures ErrorCodes(code) == None <==> code == 0 || code > 12
  {
    match e {
      case UnknownCodeError =>
      case UnknownCommandError =>
      case GeneralServerError =>
      case GeneralClientError =>
      case TaskNotCompleteError =>
      case PubKeyMismatchError =>
      case ClientNotFoundError =>
      case ReceiverNotFound =>
      case ReceiverNotAvailable =>
      case NoAvailableAddCodeError =>
      case ExistingConnError =>
      case PeerUnavailableError =>
    }
  }

  datatype Command =
    | Init
    | Quit
    | RequestPubKey
    | GetPubKey
    | RemoveAddCode
    | GetAddCode
    | EndRelay
    | RequestRelay
    | GetP2PKey
    | RequestP2P
    | HolePunchPING
    | HolePunchPONG
    | File
  {
    function Name(): string {
      match this
      case Init => "INIT"
      case Quit => "QUIT"
      case RequestPubKey => "RPUB"
      case GetPubKey => "GPUB"
      case RemoveAddCode => "RADC"
      case GetAddCode => "GADC"
      case EndRelay => "ERLY"
      case RequestRelay => "RELY"
      case GetP2PKey => "GKEY"
      case RequestP2P => "RPTP"
      case HolePunchPING => "PING"
      case HolePunchPONG => "PONG"
      case File => "FILE"
    }

    function Code(): nat {
      match this
      case Init => 0
      case Quit => 1
      case RequestPubKey => 2
      case GetPubKey => 3
      case RemoveAddCode => 4
      case GetAddCode => 5
      case EndRelay => 6
      case RequestRelay => 7
      case GetP2PKey => 8
      case RequestP2P => 9
      case HolePunchPING => 10
      case HolePunchPONG => 11
      case File => 12
    }
  }

  // The non-nil part of CommandCodes, in table order
  const AllCommands: seq<Command> := [
    Init, Quit, RequestPubKey, GetPubKey, RemoveAddCode, GetAddCode, EndRelay,
    RequestRelay, GetP2PKey, RequestP2P, HolePunchPING, HolePunchPONG, File
  ]

  // Every command sits at the index its Code field names, so decoding a code
  // is the inverse of sending it.
  lemma CommandTableInverse(c: Command)
    ensures c.Code() < |AllCommands| == 13 && AllCommands[c.Code()] == c
  {
    match c {
      case Init =>
      case Quit =>
      case RequestPubKey =>
      case GetPubKey =>
      case RemoveAddCode =>
      case GetAddCode =>
      case EndRelay =>
      case RequestRelay =>
      case GetP2PKey =>
      case RequestP2P =>
      case HolePunchPING =>
      case HolePunchPONG =>
      case File =>
    }
  }

  // Command strings are distinct, so a map keyed by the string is a map keyed
  // by the command.
  lemma CommandNamesDistinct(c: Command, d: Command)
    ensures c.Name() == d.Name() <==> c == d
  {
    if c.Name() == d.Name() {
      assert c.Name()[0] == d.Name()[0] && c.Name()[1] == d.Name()[1] && c.Name()[2] == d.Name()[2];
    }
  }
}

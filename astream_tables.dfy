/**
 The constant tables of the asynchronous stream (src/stream/astream.h):
 the control commands (tb_astream_ctrl_e) and the completion states
 (tb_astream_state_e), each built with the packing macros of
 AStreamCodes, with decoders back from integers and the lemmas that the
 named constants sit in the namespaces their names give them and never
 collide.
 */
module AStreamTables {
  import opened Options
  import opened AStreamCodes

  // ---------------------------------------------------------------------
  // Control commands

  /** The control commands accepted by the stream's `ctrl` entry point. */
  datatype Command =
    | CtrlNone
    | GetUrl | GetHost | GetPort | GetPath | GetTimeout
    | SetUrl | SetHost | SetPort | SetPath | SetTimeout
    | FileSetMode | FileSetHandle | FileGetHandle
    | SockSetType | SockSetHandle | SockGetHandle

  /** The integer each command stands for, built as the header builds it. */
  function CommandValue(c: Command): (r: nat)
    ensures r == Ctrl(TypeValue(CommandNamespace(c)), CommandIndex(c))
  {
    match c
    case CtrlNone => 0
    case GetUrl => Ctrl(TypeValue(TypeNone), 1)
    case GetHost => Ctrl(TypeValue(TypeNone), 2)
    case GetPort => Ctrl(TypeValue(TypeNone), 3)
    case GetPath => Ctrl(TypeValue(TypeNone), 4)
    case GetTimeout => Ctrl(TypeValue(TypeNone), 5)
    case SetUrl => Ctrl(TypeValue(TypeNone), 6)
    case SetHost => Ctrl(TypeValue(TypeNone), 7)
    case SetPort => Ctrl(TypeValue(TypeNone), 8)
    case SetPath => Ctrl(TypeValue(TypeNone), 9)
    case SetTimeout => Ctrl(TypeValue(TypeNone), 10)
    case FileSetMode => Ctrl(TypeValue(TypeFile), 1)
    case FileSetHandle => Ctrl(TypeValue(TypeFile), 2)
    case FileGetHandle => Ctrl(TypeValue(TypeFile), 3)
    case SockSetType => Ctrl(TypeValue(TypeSock), 1)
    case SockSetHandle => Ctrl(TypeValue(TypeSock), 2)
    case SockGetHandle => Ctrl(TypeValue(TypeSock), 3)
  }

  /** The backend a command belongs to, as its name says: generic, file or socket. */
  function CommandNamespace(c: Command): (r: StreamType)
    ensures r == TypeNone || r == TypeFile || r == TypeSock
  {
    match c
    case FileSetMode | FileSetHandle | FileGetHandle => TypeFile
    case SockSetType | SockSetHandle | SockGetHandle => TypeSock
    case _ => TypeNone
  }

  /** The position of a command within its backend's group, counting from 1. */
  function CommandIndex(c: Command): (i: nat)
    ensures i <= 10
    ensures i == 0 <==> c == CtrlNone
  {
    match c
    case CtrlNone => 0
    case GetUrl => 1
    case GetHost => 2
    case GetPort => 3
    case GetPath => 4
    case GetTimeout => 5
    case SetUrl => 6
    case SetHost => 7
    case SetPort => 8
    case SetPath => 9
    case SetTimeout => 10
    case FileSetMode => 1
    case FileSetHandle => 2
    case FileGetHandle => 3
    case SockSetType => 1
    case SockSetHandle => 2
    case SockGetHandle => 3
  }

  /** The command at a given index of a given namespace, if the header declares one. */
  function CommandAt(t: StreamType, i: nat): (r: Option<Command>)
    ensures r.Some? ==> CommandNamespace(r.value) == t && CommandIndex(r.value) == i
  {
    match t
    case TypeNone =>
      if i == 0 then Some(CtrlNone)
      else if i == 1 then Some(GetUrl)
      else if i == 2 then Some(GetHost)
      else if i == 3 then Some(GetPort)
      else if i == 4 then Some(GetPath)
      else if i == 5 then Some(GetTimeout)
      else if i == 6 then Some(SetUrl)
      else if i == 7 then Some(SetHost)
      else if i == 8 then Some(SetPort)
      else if i == 9 then Some(SetPath)
      else if i == 10 then Some(SetTimeout)
      else None
    case TypeFile =>
      if i == 1 then Some(FileSetMode)
      else if i == 2 then Some(FileSetHandle)
      else if i == 3 then Some(FileGetHandle)
      else None
    case TypeSock =>
      if i == 1 then Some(SockSetType)
      else if i == 2 then Some(SockSetHandle)
      else if i == 3 then Some(SockGetHandle)
      else None
    case TypeHttp => None
    case TypeFltr => None
  }

  /** A command decodes to the namespace its name gives it and to its index there. */
  lemma CommandDecode(c: Command)
    ensures CodeType(CommandValue(c)) == TypeValue(CommandNamespace(c))
    ensures CodeIndex(CommandValue(c)) == CommandIndex(c)
  {
    CtrlDecode(TypeValue(CommandNamespace(c)), CommandIndex(c));
  }

  /** The command an integer stands for, found by decoding its type and index. */
  function CommandOf(code: nat): (r: Option<Command>)
    ensures r.Some? ==> CommandValue(r.value) == code
  {
    CtrlEncodeDecoded(code);
    match TypeOf(CodeType(code))
    case None => None
    case Some(t) => CommandAt(t, CodeIndex(code))
  }

  /** Every command is found again from its integer. */
  lemma CommandOfValue(c: Command)
    ensures CommandOf(CommandValue(c)) == Some(c)
  {
    var code, t := CommandValue(c), CommandNamespace(c);
    CommandDecode(c);
    TypeRoundTrip(t);
    assert TypeOf(CodeType(code)) == Some(t);
    CommandAtIndex(c);
  }

  /** Looking a command up by its own namespace and index finds it. */
  lemma CommandAtIndex(c: Command)
    ensures CommandAt(CommandNamespace(c), CommandIndex(c)) == Some(c)
  {
  }

  /** No two commands of the table share an integer. */
  lemma CommandValueInjective(a: Command, b: Command)
    requires CommandValue(a) == CommandValue(b)
    ensures a == b
  {
    CommandOfValue(a);
    CommandOfValue(b);
  }

  /** The generic commands GET_URL .. SET_TIMEOUT are the integers 1 .. 10. */
  lemma GenericCommandValues()
    ensures CommandValue(GetUrl) == 1 && CommandValue(GetHost) == 2
    ensures CommandValue(GetPort) == 3 && CommandValue(GetPath) == 4
    ensures CommandValue(GetTimeout) == 5 && CommandValue(SetUrl) == 6
    ensures CommandValue(SetHost) == 7 && CommandValue(SetPort) == 8
    ensures CommandValue(SetPath) == 9 && CommandValue(SetTimeout) == 10
  {
  }

  /** Generic commands lie below 65536; file and socket commands lie in the blocks of types 1 and 2. */
  lemma CommandRanges(c: Command)
    ensures CommandNamespace(c) == TypeNone ==> CommandValue(c) <= 0xFFFF
    ensures CommandNamespace(c) == TypeFile ==> 0x1_0000 < CommandValue(c) <= 0x1_FFFF
    ensures CommandNamespace(c) == TypeSock ==> 0x2_0000 < CommandValue(c) <= 0x2_FFFF
  {
  }

  // ---------------------------------------------------------------------
  // Completion states

  /** The state codes a completion callback receives. */
  datatype StreamState =
    | StateOk | StateClosed | StateUnknownError
    | SockDnsFailed | SockConnectFailed | SockConnectTimeout | SockSslFailed

  /** The integer each state stands for, built as the header builds it. */
  function StateValue(s: StreamState): (r: nat)
    ensures r == State(TypeValue(StateNamespace(s)), StateIndex(s))
  {
    match s
    case StateOk => 0
    case StateClosed => 1
    case StateUnknownError => 2
    case SockDnsFailed => State(TypeValue(TypeSock), 1)
    case SockConnectFailed => State(TypeValue(TypeSock), 2)
    case SockConnectTimeout => State(TypeValue(TypeSock), 3)
    case SockSslFailed => State(TypeValue(TypeSock), 4)
  }

  /** The backend a state belongs to, as its name says: generic or socket. */
  function StateNamespace(s: StreamState): (r: StreamType)
    ensures r == TypeNone || r == TypeSock
  {
    match s
    case StateOk | StateClosed | StateUnknownError => TypeNone
    case _ => TypeSock
  }

  /** The position of a state within its backend's group (generic states count from 0). */
  function StateIndex(s: StreamState): (i: nat)
    ensures i <= 4
    ensures StateNamespace(s) == TypeSock ==> i >= 1
  {
    match s
    case StateOk => 0
    case StateClosed => 1
    case StateUnknownError => 2
    case SockDnsFailed => 1
    case SockConnectFailed => 2
    case SockConnectTimeout => 3
    case SockSslFailed => 4
  }

  /** The state at a given index of a given namespace, if the header declares one. */
  function StateAt(t: StreamType, i: nat): (r: Option<StreamState>)
    ensures r.Some? ==> StateNamespace(r.value) == t && StateIndex(r.value) == i
  {
    match t
    case TypeNone =>
      if i == 0 then Some(StateOk)
      else if i == 1 then Some(StateClosed)
      else if i == 2 then Some(StateUnknownError)
      else None
    case TypeSock =>
      if i == 1 then Some(SockDnsFailed)
      else if i == 2 then Some(SockConnectFailed)
      else if i == 3 then Some(SockConnectTimeout)
      else if i == 4 then Some(SockSslFailed)
      else None
    case _ => None
  }

  /** A state decodes to the namespace its name gives it and to its index there. */
  lemma StateCodeDecode(s: StreamState)
    ensures CodeType(StateValue(s)) == TypeValue(StateNamespace(s))
    ensures CodeIndex(StateValue(s)) == StateIndex(s)
  {
    StateDecode(TypeValue(StateNamespace(s)), StateIndex(s));
  }

  /** The state an integer stands for, found by decoding its type and index. */
  function StateOf(code: nat): (r: Option<StreamState>)
    ensures r.Some? ==> StateValue(r.value) == code
  {
    CtrlEncodeDecoded(code);
    match TypeOf(CodeType(code))
    case None => None
    case Some(t) => StateAt(t, CodeIndex(code))
  }

  /** Every state is found again from its integer. */
  lemma StateOfValue(s: StreamState)
    ensures StateOf(StateValue(s)) == Some(s)
  {
    var code, t := StateValue(s), StateNamespace(s);
    StateCodeDecode(s);
    TypeRoundTrip(t);
    assert TypeOf(CodeType(code)) == Some(t);
    StateAtIndex(s);
  }

  /** Looking a state up by its own namespace and index finds it. */
  lemma StateAtIndex(s: StreamState)
    ensures StateAt(StateNamespace(s), StateIndex(s)) == Some(s)
  {
  }

  /** No two states of the table share an integer. */
  lemma StateValueInjective(a: StreamState, b: StreamState)
    requires StateValue(a) == StateValue(b)
    ensures a == b
  {
    StateOfValue(a);
    StateOfValue(b);
  }

  /** The socket states DNS_FAILED .. SSL_FAILED decode to (SOCK, 1) .. (SOCK, 4). */
  lemma SockStatesDecode()
    ensures CodeType(StateValue(SockDnsFailed)) == 2 && CodeIndex(StateValue(SockDnsFailed)) == 1
    ensures CodeType(StateValue(SockConnectFailed)) == 2 && CodeIndex(StateValue(SockConnectFailed)) == 2
    ensures CodeType(StateValue(SockConnectTimeout)) == 2 && CodeIndex(StateValue(SockConnectTimeout)) == 3
    ensures CodeType(StateValue(SockSslFailed)) == 2 && CodeIndex(StateValue(SockSslFailed)) == 4
  {
    StateCodeDecode(SockDnsFailed);
    StateCodeDecode(SockConnectFailed);
    StateCodeDecode(SockConnectTimeout);
    StateCodeDecode(SockSslFailed);
  }

  /** The generic states OK, CLOSED and UNKNOWN_ERROR are 0, 1, 2 and lie below every socket state. */
  lemma GenericStatesApart(g: StreamState, s: StreamState)
    requires StateNamespace(g) == TypeNone && StateNamespace(s) == TypeSock
    ensures StateValue(g) == StateIndex(g) <= 2
    ensures StateValue(g) < 0x2_0000 < StateValue(s)
  {
  }

  /** Only the state OK has the code 0 that signals success. */
  lemma OnlyOkIsZero(s: StreamState)
    ensures StateValue(s) == 0 <==> s == StateOk
  {
    if StateValue(s) == 0 {
      StateValueInjective(s, StateOk);
    }
  }
}

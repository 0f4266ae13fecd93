/*
 * Protocol vocabulary shared by the wire layer and the client: the
 * opcodes the client sends and the ways an operation can end.
 */
module Protocol {
  import opened Bytes

  /**
   * The opcodes of `RemotePluginOpcode` that the client sends. The
   * enumeration and its numeric values are declared in a header that is
   * not part of this model; the model only needs every opcode to have a
   * fixed, distinct `sizeof(RemotePluginOpcode)`-byte tag.
   */
  datatype Opcode =
    | GetVersion | GetName | GetMaker
    | SetSampleRate | Reset | Terminate
    | GetInputCount | GetOutputCount
    | GetParameterCount | GetParameterName | SetParameter | GetParameter
    | GetParameterDefault | GetParameters
    | HasMIDIInput | GetProgramCount | GetProgramName | SetCurrentProgram
    | SendMIDIData | Process
    | SetDebugLevel | Warn | ShowGUI | HideGUI
    | GetVSTChunk | SetVSTChunk

  /** `sizeof(RemotePluginOpcode)`: an enum is an `int`. */
  const OpcodeSize: nat := 4

  /** A tag for each opcode; any injective numbering serves the model. */
  function Tag(op: Opcode): Int32
  {
    match op
    case GetVersion => 0
    case GetName => 1
    case GetMaker => 2
    case SetSampleRate => 3
    case Reset => 4
    case Terminate => 5
    case GetInputCount => 6
    case GetOutputCount => 7
    case GetParameterCount => 8
    case GetParameterName => 9
    case SetParameter => 10
    case GetParameter => 11
    case GetParameterDefault => 12
    case GetParameters => 13
    case HasMIDIInput => 14
    case GetProgramCount => 15
    case GetProgramName => 16
    case SetCurrentProgram => 17
    case SendMIDIData => 18
    case Process => 19
    case SetDebugLevel => 20
    case Warn => 21
    case ShowGUI => 22
    case HideGUI => 23
    case GetVSTChunk => 24
    case SetVSTChunk => 25
  }

  /** The bytes `write(fd, &opcode, sizeof(RemotePluginOpcode))` puts on the wire. */
  function OpcodeBytes(op: Opcode): (s: seq<byte>)
    ensures |s| == OpcodeSize
  {
    EncodeInt(Tag(op))
  }

  /** The server can tell every opcode from every other by its bytes. */
  lemma OpcodeBytesInjective(a: Opcode, b: Opcode)
    ensures OpcodeBytes(a) == OpcodeBytes(b) <==> a == b
  {
    EncodeIntInjective(Tag(a), Tag(b));
  }

  /** A C pointer that may be null, or an optional argument. */
  datatype Option<T> = None | Some(value: T)

  /** What the source throws. */
  datatype Exception =
    | PluginClosed            // RemotePluginClosedException
    | BadAlloc                // std::bad_alloc, or std::bad_array_new_length for a negative array size, from `new[]`
    | Message(text: string)   // a thrown std::string

  /** How an operation ends. */
  datatype Status =
    | Done                    // returned normally
    | Threw(e: Exception)     // threw e
    | Stalled                 // the peer gave no further outcome: the source would wait or retry forever
    | Undefined               // the source's behaviour is undefined from here (a length field it trusts is out of range)
}

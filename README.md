# dssi-vst remote plugin client: transport and client state

This project models the host side of the dssi-vst bridge, which drives a
Windows VST plugin that runs in a separate server process. Two parts are
modelled.

- **The framing layer (`rdwrops.cpp`).** It moves opcodes, ints, floats,
  length-prefixed strings, MIDI batches and zlib-compressed blobs over
  named pipes. Module `Rdwr` models it with the leaf types in `Bytes`
  and `Protocol`. `Pipe` gives the behaviour of `read(2)` and `write(2)`
  as scripted outcomes.
- **The client object (`RemotePluginClient`).** It creates four temporary
  names (three FIFOs and one shared-memory file) and then waits for the
  server. After that it maps the audio region, which holds
  `(inputs + outputs) * bufferSize` floats, and forwards each control
  call as one opcode on the right channel. `Client.RemotePluginClient`
  models it. The pure parts of its life cycle (retrying opens, the
  resources `cleanup` releases, the file-identifier string) are in
  `Lifecycle`.

How the operating system is modelled:

- Each pipe end is a `Pipe.ReadChannel` or `Pipe.WriteChannel`. It holds
  the bytes not yet read, or the bytes already accepted, plus the outcomes
  of the coming system calls: short transfers, `EAGAIN`, end of file or
  an error.
- Every read operation is proved against a specification function such as
  `Rdwr.Drain`, `Rdwr.Fetch`, `Rdwr.IntReply` or `Rdwr.StringReply`.
- Every write operation is proved against `Rdwr.Put` or `Rdwr.PutAll`.
- The round-trip lemmas in `RoundTrip` tie each writer to its reader.

Each operation's outcome is a `Protocol.Status`:

- `Done`
- `Threw(e)`, which covers the source's three kinds of exception:
  `RemotePluginClosedException`, `std::bad_alloc` and a thrown
  `std::string`
- `Stalled`, where the script of system-call outcomes runs out. On a read
  this stands for a source that would go on retrying; on a write it means
  only that no further outcome was given
- `Undefined`, where the source's behaviour is undefined: it trusts a
  length field it never checks, or `reset` clears the region through a
  null pointer after `cleanup`

## Model

| member | source | states |
|---|---|---|
| Bytes.Unsigned | rdwrops.cpp:111-122 | the 32-bit pattern of an int is the one value below 2^32 that is congruent to it modulo 2^32 |
| Bytes.EncodeInt | rdwrops.cpp:111-114 | `writeInt` puts exactly `sizeof(int)` bytes on the wire |
| Bytes.DecodeInt | rdwrops.cpp:117-122 | the int four received bytes stand for is negative exactly when the top bit of the last byte is set, and its low byte is the first byte received |
| Bytes.DecodeEncodeInt | rdwrops.cpp:111-122 | decoding the four bytes an int is written as gives back the int |
| Bytes.EncodeDecodeInt | rdwrops.cpp:117-122 | every four-byte group read as an int is re-encoded to the same bytes |
| Bytes.EncodeIntInjective | rdwrops.cpp:111-114 | two ints have the same encoding exactly when they are equal |
| Bytes.WordBytes | rdwrops.cpp:125-128 | a float occupies exactly four bytes on the wire |
| Bytes.WordRoundTrip | rdwrops.cpp:125-136 | a float survives being written and read back bit for bit, in both directions |
| Bytes.EncodeInts | rdwrops.cpp:139-151 | an array of n ints lies in memory as 4n bytes |
| Bytes.DecodeInts | rdwrops.cpp:139-151 | 4n bytes read as ints give n ints |
| Bytes.DecodeEncodeInts | rdwrops.cpp:139-151 | a frame-offset array survives its byte encoding |
| Bytes.EncodeDecodeInts | rdwrops.cpp:147 | any whole number of received int groups is given back byte for byte by encoding the ints decoded from it |
| Bytes.EncodeWords | remotepluginclient.cpp:359-365 | n floats lie in memory as 4n bytes |
| Bytes.DecodeWords | remotepluginclient.cpp:359-365 | 4n bytes read as floats give n floats |
| Bytes.DecodeEncodeWords | remotepluginclient.cpp:359-365 | a block of parameter values survives its byte encoding |
| Bytes.Zeros | remotepluginclient.cpp:404-410 | the offsets `sendMIDIData` makes up when none are given are all zero, one per event |
| Bytes.CString | rdwrops.cpp:105-107 | the `std::string` made from a received `char*` is the longest NUL-free prefix of the buffer |
| Bytes.CStringKeepsAll | rdwrops.cpp:86-108 | a string comes back whole exactly when it holds no NUL |
| Bytes.CStringCutsAtFirstNul | rdwrops.cpp:105-107 | a string is cut at its first NUL |
| Bytes.CStringTerminated | rdwrops.cpp:105-107 | the NUL `readString` stores after the received bytes does not change the string it returns |
| Protocol.OpcodeBytes | rdwrops.cpp:80-83 | an opcode is written as exactly `sizeof(RemotePluginOpcode)` bytes |
| Protocol.OpcodeBytesInjective | rdwrops.cpp:80-83 | the server can tell every opcode from every other by its bytes |
| Pipe.ReadCall | rdwrops.cpp:24 | one `read` returns -1 or at most the requested count, and takes bytes from the front of the stream. A result flagged `EAGAIN` is always -1 |
| Pipe.WriteCall | rdwrops.cpp:60 | one `write` returns -1 or at most the count, and the pipe accepts a prefix of the source |
| Pipe.ReadChannel.Read | rdwrops.cpp:24 | the channel advances as `ReadCall` says, and the bytes handed over land in the buffer at the given offset with nothing else touched |
| Pipe.WriteChannel.Write | rdwrops.cpp:60 | the channel advances as `WriteCall` says |
| Rdwr.Drain | rdwrops.cpp:22-45 | the read loop never yields more than asked, and it completes only with the full count |
| Rdwr.DrainTakesFront | rdwrops.cpp:22-45 | what the loop reads is the front of the pending bytes, and what stays pending is the remainder |
| Rdwr.DrainSplits | rdwrops.cpp:22-45 | the stream is exactly the bytes the loop took followed by the bytes it left pending |
| Rdwr.DrainOutcome | rdwrops.cpp:26-42 | the loop ends in one of three ways: done, closed on end of file or an error, or stalled with the script used up, where the source would go on retrying. A loop that took all of a non-zero count is done |
| Rdwr.DrainStep | rdwrops.cpp:22-45 | proof helper: the defining equation of `Drain` for one `read`, unfolded |
| Rdwr.PrependPrepend | rdwrops.cpp:22-45 | bytes gathered in two rounds chain into one prefix |
| Rdwr.Fetch | rdwrops.cpp:20-53 | `tryRead` on a negative descriptor throws `RemotePluginClosedException` at once; otherwise it behaves as the read loop. It ends done, closed or stalled, and the stream is what it took followed by what it left |
| Rdwr.IntReply | rdwrops.cpp:117-122 | `readInt` ends done, closed or stalled. When done, it took exactly the encoding of the int it returns off the front of the stream |
| Rdwr.FloatReply | rdwrops.cpp:131-136 | `readFloat` ends done, closed or stalled. When done, it took exactly the four bytes of the float it returns off the front of the stream |
| Rdwr.StringReply | rdwrops.cpp:94-108 | `readString` is undefined only when the received length is negative or `INT_MAX`. When done, the length is in range, the string is the C string of the next length bytes, and everything after them is left |
| Rdwr.MidiReply | rdwrops.cpp:139-151 | `readMIDIData` is undefined only when the received count is negative or exceeds the static buffers. When done, the count is in range, and the stream after it is the 3-bytes-per-event data, then the offsets' bytes, then what is left |
| Rdwr.MidiPayload | rdwrops.cpp:146-147 | the data and offset reads end done, closed or stalled. When done, the stream is the data, then the bytes of the offsets, then what is left |
| Rdwr.RawReply | rdwrops.cpp:186-228 | `readRaw` is undefined only when the compressed length is negative. A negative raw length throws `bad_alloc`, after the compressed bytes arrived. When done, both lengths are non-negative and the result is decompression of the compressed bytes after the two length fields |
| Rdwr.TryRead | rdwrops.cpp:20-53 | the status, the channel afterwards and the bytes written into `buf` at the offset all agree with `Fetch`, and the rest of the buffer is untouched |
| Rdwr.ReadLoop | rdwrops.cpp:22-45 | on a valid descriptor the loop's status, channel and buffer are those `Drain` gives |
| Rdwr.DrainStalled | rdwrops.cpp:22-45 | proof helper: `Drain` on a used-up script, unfolded |
| Rdwr.ReadStep | rdwrops.cpp:24-44 | one pass of `tryRead`'s loop body keeps the loop invariant: the bytes gathered plus the rest of the loop equal the whole read |
| Rdwr.StepAdvances | rdwrops.cpp:24-44 | after one more `read`, the whole loop has finished with the bytes gathered so far, or it continues from the new read end |
| Rdwr.Put | rdwrops.cpp:56-77 | `tryWrite` makes exactly one `write` on a valid descriptor and never retries. It is done exactly when that one call took all the bytes, and it throws on a short write or an error. Whatever happens the pipe holds a prefix of the data, and a negative descriptor throws and changes nothing |
| Rdwr.PutAll | rdwrops.cpp:86-91 | consecutive writes send a prefix of their concatenation, all of it when they complete, and stop at the first failure |
| Rdwr.PutAllCons | rdwrops.cpp:86-91 | proof helper: the defining equation of `PutAll` for a first piece, unfolded |
| Rdwr.FlattenThree | rdwrops.cpp:86-91 | two or three consecutive writes put their concatenation on the wire |
| Rdwr.TryWrite | rdwrops.cpp:56-77 | the status and the channel afterwards are those of `Put` |
| Rdwr.WriteOpcode | rdwrops.cpp:80-83 | `writeOpcode` is `Put` of the opcode's bytes |
| Rdwr.WriteInt | rdwrops.cpp:111-114 | `writeInt` is `Put` of the int's four bytes |
| Rdwr.WriteFloat | rdwrops.cpp:125-128 | `writeFloat` is `Put` of the float's four bytes |
| Rdwr.WriteString | rdwrops.cpp:86-91 | `writeString` is `PutAll` of `StringPieces`: the length, then the bytes, with no terminator |
| Rdwr.StringPieces | rdwrops.cpp:86-91 | the frame of `writeString` is four length bytes that decode to the string's length, followed by the string itself |
| Rdwr.MidiPieces | remotepluginclient.cpp:399-415 | the MIDI frame is four bytes that decode to the event count, then the data bytes, then bytes that decode to the frame offsets |
| Rdwr.RawPieces | rdwrops.cpp:176-180 | the `writeRaw` frame is the compressed length, then the raw length, each decoding to its value, then the compressed bytes |
| Rdwr.WriteRaw | rdwrops.cpp:155-183 | `writeRaw` throws before writing anything when compression fails. Otherwise it sends the compressed length, the raw length, then the compressed bytes |
| Rdwr.ReadInt | rdwrops.cpp:117-122 | the int read and the status are those of `IntReply` |
| Rdwr.ReadFloat | rdwrops.cpp:131-136 | the float read and the status are those of `FloatReply` |
| Rdwr.ReadString | rdwrops.cpp:94-108 | the string read agrees with `StringReply`: a length, then that many bytes, cut at the first NUL. A negative length, or `INT_MAX`, is undefined behaviour. The scratch buffer is regrown to `len + 1` bytes only when it is too small |
| Rdwr.ReadMIDIData | rdwrops.cpp:139-151 | the event count, the data and the frame offsets agree with `MidiReply`. A count beyond the static buffers is undefined behaviour |
| Rdwr.ReadMIDIPayload | rdwrops.cpp:146-150 | the data and offset reads fill the two static buffers: on success the data buffer holds the returned data, and the offset buffer holds exactly the bytes of the returned offsets, as `MidiPayload` says |
| Rdwr.ReadRaw | rdwrops.cpp:186-228 | the chunk read agrees with `RawReply`: the two length fields, the compressed bytes and the decompression result, with the scratch buffer regrown when too small |
| Rdwr.CopyOut | rdwrops.cpp:221-227 | the returned vector holds exactly the decompressed bytes |
| RoundTrip.FetchTakesFront | rdwrops.cpp:20-53 | a completed `tryRead` hands over exactly the next `count` bytes of the stream |
| RoundTrip.WouldBlockIsRetried | rdwrops.cpp:30-33 | an `EAGAIN` result changes nothing: the loop simply calls `read` again |
| RoundTrip.SteadyDrainCompletes | rdwrops.cpp:22-45 | when enough bytes are pending and enough `read` calls deliver, possibly after `EAGAIN`, the loop completes with exactly the front bytes |
| RoundTrip.SteadyDrainDone | rdwrops.cpp:22-45 | under the same conditions the loop returns normally |
| RoundTrip.SteadyTail | rdwrops.cpp:22-45 | after one steady `read`, the remaining outcomes are steady too |
| RoundTrip.DrainZero | rdwrops.cpp:22-45 | a read of zero bytes consumes nothing. When the first `read` hands over data or reports end of file, it returns 0, which equals the count, so the loop is done at once |
| RoundTrip.FetchFrame | rdwrops.cpp:20-53 | reading the length of a written frame gives the frame, unless the peer fails, and leaves the rest pending |
| RoundTrip.IntRoundTrip | rdwrops.cpp:111-122 | `readInt` after `writeInt` gives back the int and leaves the rest of the stream |
| RoundTrip.FloatRoundTrip | rdwrops.cpp:125-136 | `readFloat` after `writeFloat` gives back the float and leaves the rest of the stream |
| RoundTrip.ParametersRoundTrip | remotepluginclient.cpp:359-365 | a block of floats written by the server is read into the caller's buffer unchanged |
| RoundTrip.StringFrameBytes | rdwrops.cpp:86-91 | `writeString` puts the length and then the payload in front of whatever follows |
| RoundTrip.StringRoundTrip | rdwrops.cpp:86-108 | `readString` after `writeString` gives back the string up to its first NUL, the whole string when it has none, and consumes exactly the frame |
| RoundTrip.StringFrameRead | rdwrops.cpp:94-108 | reading a string frame reads its length, then exactly length bytes, and leaves the rest pending |
| RoundTrip.MidiRoundTrip | rdwrops.cpp:139-151 | a MIDI batch in the layout `sendMIDIData` writes comes back with the same count, data and frame offsets |
| RoundTrip.MidiFrameBytes | remotepluginclient.cpp:399-415 | the frame `sendMIDIData` writes after its opcode starts with four bytes that decode to the event count, followed by the data, the offsets' bytes and whatever comes next |
| RoundTrip.RawRoundTrip | rdwrops.cpp:155-228 | `readRaw` after `writeRaw` reads back the compressed bytes and the raw length. The chunk it returns is what decompression yields |
| Lifecycle.Effective | remotepluginclient.cpp:114-126 | opening a missing name always fails; otherwise the system's outcomes apply |
| Lifecycle.RetryFrom | remotepluginclient.cpp:114-126 | the open loop retries only while there is no reader on the other end. It stops at the first other outcome or at the attempt limit, and holds a descriptor exactly when the last attempt opened |
| Lifecycle.RetryConnects | remotepluginclient.cpp:114-151 | the loop connects exactly when some attempt within the limit opens and every earlier one found no reader |
| Lifecycle.RetryStopsAt | remotepluginclient.cpp:114-126 | the loop makes exactly k+1 attempts when attempt k is the first one that finds a reader or fails for good |
| Lifecycle.Releases | remotepluginclient.cpp:167-209 | `cleanup` unmaps the region first, then closes descriptors and removes names. With nothing held it does nothing |
| Lifecycle.ReleasesWhatIsHeld | remotepluginclient.cpp:167-209 | `cleanup` releases exactly the resources held: each open descriptor, each name and a mapped region |
| Lifecycle.ClosesWhatIsOpen | remotepluginclient.cpp:173-188 | `cleanup` closes exactly the descriptors that are open |
| Lifecycle.RemovesWhatIsNamed | remotepluginclient.cpp:189-208 | `cleanup` removes exactly the names that are held |
| Lifecycle.OpenOnce | remotepluginclient.cpp:133-136 | the single open of the response FIFO holds a descriptor exactly when the name exists and the open succeeded, and -1 otherwise |
| Lifecycle.Tail6 | remotepluginclient.cpp:212-221 | the last six characters of a name |
| Lifecycle.Identifiers | remotepluginclient.cpp:212-221 | the identifier string is 24 characters: the last six of each of the four names, in order |
| Lifecycle.TailOfTempName | remotepluginclient.cpp:40-89 | the last six characters of each temporary name are the six `mkstemp` filled in |
| Lifecycle.IdentifiersAreSuffixes | remotepluginclient.cpp:212-221 | the identifier string is the four `mkstemp` suffixes joined |
| Lifecycle.SetupFailure | remotepluginclient.cpp:40-96 | the constructor succeeds exactly when all four temporary names are made, the three FIFOs are created and the shared-memory file opens. Each failure has its own message |
| Lifecycle.NamesMade | remotepluginclient.cpp:40-89 | how many temporary names the constructor made before it stopped, and why it stopped |
| Lifecycle.MadeReleasesNames | remotepluginclient.cpp:40-96 | after a failed constructor, `cleanup` removes exactly the names it had made, in order |
| Lifecycle.MadeIdentifiers | remotepluginclient.cpp:212-221 | after a successful constructor, the file identifiers are the four `mkstemp` suffixes |
| Client.ReadBool | remotepluginclient.cpp:158-159 | reading a `bool` answer reads one byte, and the answer is true when that byte is non-zero |
| Client.BoolReply | remotepluginclient.cpp:158-159 | a one-byte `bool` read ends done, closed or stalled. When done, the answer is whether the first pending byte is non-zero, and that byte alone is consumed |
| Client.FrameOffsets | remotepluginclient.cpp:404-410 | the offsets sent with a MIDI batch are the caller's when given and zeros otherwise, one per event |
| Client.Block | remotepluginclient.cpp:446-452 | the k-th buffer of the shared region is one `bufferSize` block |
| Client.Overwrite | remotepluginclient.cpp:450-452 | copying one buffer into the region keeps the region's size |
| Client.BlockOfSplice | remotepluginclient.cpp:450-452 | copying a buffer into block j changes block j and no other block |
| Client.CopyBlock | remotepluginclient.cpp:446-452 | `memcpy` of one buffer puts the source block into the destination and leaves everything else as it was |
| Client.OpenRetrying | remotepluginclient.cpp:114-126 | the open-with-retry loop returns what `RetryFrom` says: the descriptor, -1 on failure, and the number of attempts |
| Client.OpenFifos | remotepluginclient.cpp:111-156 | the startup opens connect all three FIFOs or give the first error: a timeout, a missing control FIFO or a missing process FIFO. Only the three descriptors change |
| Client.StartupOf | remotepluginclient.cpp:104-164 | `syncStartup` cleans up exactly when it throws a message: an open failed, or the server answered false. On success all three FIFOs are open |
| Client.StartupSucceeds | remotepluginclient.cpp:104-164 | startup succeeds exactly when both retry loops connect, the response FIFO opens, and the server's one-byte answer is non-zero |
| Client.Zero | remotepluginclient.cpp:241 | `memset` leaves every sample of the region zero |
| Client.RemotePluginClient.constructor | remotepluginclient.cpp:25-39 | a fresh client holds no descriptor, no name and no region, and its buffer size and channel counts are -1, meaning unknown |
| Client.RemotePluginClient.Setup | remotepluginclient.cpp:40-96 | the constructor either holds the four names and the region file, or it has cleaned up and throws the matching message. Its status is `SetupFailure`'s |
| Client.RemotePluginClient.MakeFifoNames | remotepluginclient.cpp:40-82 | the FIFO steps keep each name as soon as `mkstemp` makes it and stop at the first failure, with `SetupFailure`'s message. They succeed exactly when all three names and FIFOs are made |
| Client.RemotePluginClient.Cleanup | remotepluginclient.cpp:167-209 | after `cleanup` nothing is held. Each open descriptor becomes -1 and the others keep their values, the region is forgotten and the names are removed, so a second call changes nothing. What it released is the set of handles held before, and the sizes and counts are unchanged |
| Client.RemotePluginClient.CloseDescriptors | remotepluginclient.cpp:173-188 | the four descriptors are closed and set to -1, and nothing else changes |
| Client.RemotePluginClient.RemoveNames | remotepluginclient.cpp:189-208 | the four names are removed and forgotten, and nothing else changes |
| Client.RemotePluginClient.FileIdentifiers | remotepluginclient.cpp:212-221 | the identifier string has 24 characters, the last six of each name in order |
| Client.RemotePluginClient.SyncStartup | remotepluginclient.cpp:104-164 | the status and the response channel are those of `StartupOf`. On a thrown message everything is released; otherwise the descriptors are as opened and the region is the same array |
| Client.RemotePluginClient.OpenDescriptors | remotepluginclient.cpp:111-156 | the three descriptors become those `OpenFifos` gives, and the error it reports is returned |
| Client.RemotePluginClient.SizeShm | remotepluginclient.cpp:224-245 | with unknown dimensions nothing changes. Otherwise the region is remapped to `(inputs + outputs) * bufferSize` samples, all zero, or forgotten when mapping fails |
| Client.RemotePluginClient.Resized | remotepluginclient.cpp:224-245 | the effect of `sizeShm`: with known dimensions a region exists exactly when mapping worked, and its recorded size in bytes matches it |
| Client.RemotePluginClient.SetBufferSize | remotepluginclient.cpp:270-277 | the same size changes nothing. A new size is recorded and the region resized, then the reset opcode goes on the control channel and the size on the process channel |
| Client.RemotePluginClient.Reset | remotepluginclient.cpp:287-293 | the reset opcode goes on the process channel and the region is zeroed. A recorded size with no region is undefined behaviour |
| Client.RemotePluginClient.GetInputCount | remotepluginclient.cpp:302-308 | the count is the server's answer. When it arrives it is recorded and the region is resized; on failure nothing changes |
| Client.RemotePluginClient.GetOutputCount | remotepluginclient.cpp:311-317 | the same as for inputs, for the output count |
| Client.RemotePluginClient.Process | remotepluginclient.cpp:418-463 | without a region, dimensions or buffer size nothing happens. Otherwise each output buffer receives the previous cycle's output block, each input buffer is stored in its block, the other blocks are kept, and the process opcode is sent |
| Client.RemotePluginClient.FetchOutputs | remotepluginclient.cpp:446-448 | each output buffer's first `bufferSize` samples become its block of the region, and the rest of the buffer is unchanged |
| Client.RemotePluginClient.FetchOutput | remotepluginclient.cpp:447 | one output buffer's first block becomes its segment of the region |
| Client.RemotePluginClient.StoreInputs | remotepluginclient.cpp:450-452 | each input buffer is copied into its block of the region, and the output blocks are unchanged |
| Client.RemotePluginClient.StoreInput | remotepluginclient.cpp:451 | the region becomes itself with one input segment replaced by the input buffer |
| Client.RemotePluginClient.SendMIDIData | remotepluginclient.cpp:399-415 | the process channel receives the opcode, the event count, the 3-byte events and the frame offsets (zeros when none are given), in that order |
| Client.RemotePluginClient.GetVersion | remotepluginclient.cpp:248-253 | the opcode goes on the control channel and the version is the float read from the response channel |
| Client.RemotePluginClient.GetName | remotepluginclient.cpp:256-260 | the opcode goes on the control channel and the name is the string read back |
| Client.RemotePluginClient.GetMaker | remotepluginclient.cpp:263-267 | the opcode goes on the control channel and the maker is the string read back |
| Client.RemotePluginClient.GetParameterCount | remotepluginclient.cpp:320-324 | the opcode goes on the control channel and the count is the int read back |
| Client.RemotePluginClient.GetProgramCount | remotepluginclient.cpp:377-381 | the opcode goes on the control channel and the count is the int read back |
| Client.RemotePluginClient.GetParameterName | remotepluginclient.cpp:327-332 | the opcode and the index go on the control channel and the name is the string read back |
| Client.RemotePluginClient.GetProgramName | remotepluginclient.cpp:384-389 | the opcode and the program number go on the control channel and the name is the string read back |
| Client.RemotePluginClient.GetParameter | remotepluginclient.cpp:343-348 | the opcode and the index go on the control channel and the value is the float read back |
| Client.RemotePluginClient.GetParameterDefault | remotepluginclient.cpp:351-356 | the opcode and the index go on the control channel and the default is the float read back |
| Client.RemotePluginClient.GetParameters | remotepluginclient.cpp:359-365 | the opcode and both indices are sent. Then `(pn - p0 + 1)` floats are read straight into the caller's buffer, and only the part read is changed |
| Client.RemotePluginClient.HasMIDIInput | remotepluginclient.cpp:368-374 | the opcode goes on the control channel and the answer is the one-byte `bool` read back |
| Client.RemotePluginClient.Warn | remotepluginclient.cpp:473-480 | the opcode and the message go on the control channel and the answer is the one-byte `bool` read back |
| Client.RemotePluginClient.GetVSTChunk | remotepluginclient.cpp:496-503 | the opcode goes on the control channel and the chunk is what `readRaw` reads back |
| Client.RemotePluginClient.Terminate | remotepluginclient.cpp:296-299 | the terminate opcode goes on the control channel |
| Client.RemotePluginClient.HideGUI | remotepluginclient.cpp:490-493 | the opcode goes on the control channel |
| Client.RemotePluginClient.ShowGUI | remotepluginclient.cpp:483-487 | the opcode and the GUI string go on the control channel |
| Client.RemotePluginClient.SetDebugLevel | remotepluginclient.cpp:466-470 | the opcode and the level go on the control channel |
| Client.RemotePluginClient.SetVSTChunk | remotepluginclient.cpp:505-511 | the opcode, then the compressed chunk as `writeRaw` sends it, go on the control channel |
| Client.RemotePluginClient.SetSampleRate | remotepluginclient.cpp:280-284 | the opcode and the rate go on the process channel |
| Client.RemotePluginClient.SetParameter | remotepluginclient.cpp:335-340 | the opcode, the index and the value go on the process channel |
| Client.RemotePluginClient.SetCurrentProgram | remotepluginclient.cpp:392-396 | the opcode and the program number go on the process channel |

## Left out

- Timing is not modelled: `sleep`, `usleep`, and the number of seconds
  spent. The retry limits (40 attempts on the control FIFO, 6 on the
  process FIFO) are kept.
- Logging is not modelled: `perror`, `std::cerr` and the `file` and `line`
  arguments of the `rdwr_` functions.
- `mkstemp`, `mkfifo`, `open`, `ftruncate`, `mmap` and `unlink` are not
  modelled as calls. Their results are parameters: an optional suffix per
  name, a flag per FIFO, an open outcome, and a `mapped` flag for `mmap`.
- The descriptor `mkstemp` returns is never closed in the source. The model
  does not track it. The model also does not track the `unlink` of each
  placeholder just before `mkfifo`.
- zlib is not modelled. `compress` and `uncompress` are functions passed in
  (`Deflate`, `Inflate`) that succeed with some bytes or fail.
- `Rdwr.ReadRaw`: the size `uncompress` reports through its in-out length
  is folded into the `Inflate` result.
- Byte order is not modelled. Ints and floats are written in the host's
  native order, and the model fixes it as little-endian. Floats are opaque
  four-byte words (`Bytes.Word`).
- Blocking forever is not modelled as a loop. Where the read loop would
  retry for ever (an `EAGAIN` forever), the model's script runs out and
  the status is `Stalled`. The write descriptors are opened
  `O_NONBLOCK` (remotepluginclient.cpp:117, :142), so a full pipe makes
  `write` return -1 and `tryWrite` throw: that is the `WriteError`
  outcome. On a write, `Stalled` means only that the script of write
  outcomes ran out.
- `Rdwr.ReadString`: a negative received length, or `INT_MAX` (where
  `len + 1` overflows), is modelled only as `Undefined`, not as whatever
  the allocation then does.
- `Rdwr.ReadMIDIData`: the static buffers are `MIDI_BUFFER_SIZE` events
  long in the source, and their size is a parameter here. A received count
  above it, or a negative count, is `Undefined`, because the source
  overruns its buffers.
- `Rdwr.Scratch`: the function-local `static` buffers of `readString` and
  `readRaw` become a `Scratch` object the caller passes in. Sharing between
  threads is not modelled.
- `RoundTrip.StringRoundTrip`: only strings shorter than `INT_MAX` bytes are
  covered, because the length field `len + 1` overflows otherwise.
- `Rdwr.WriteString`: only strings of at most `INT_MAX` bytes are
  covered. The source's `size_t` to `int` truncation of a longer length
  is not modelled.
- `Rdwr.StringPieces`: only strings of at most `INT_MAX` bytes are
  covered, for the same reason as `Rdwr.WriteString`.
- `Client.RemotePluginClient.Warn`: only messages of at most `INT_MAX`
  bytes are covered, because `writeString`'s `size_t` to `int`
  truncation is not modelled.
- `Client.RemotePluginClient.ShowGUI`: only GUI strings of at most
  `INT_MAX` bytes are covered, because `writeString`'s `size_t` to
  `int` truncation is not modelled.
- `Rdwr.WriteRaw`: only vectors whose length and compressed length fit in
  an `int` are covered. The source's `size_t` to `int` truncation is not
  modelled.
- `Rdwr.WriteRaw`: taking `&rawdata[0]` of an empty vector is not modelled.
- `Rdwr.RawPieces`: only compressed chunks of at most `INT_MAX` bytes are
  covered, because the `size_t` to `int` truncation of the length field
  is not modelled.
- `Client.RemotePluginClient.SetVSTChunk`: only chunks whose length and
  compressed length fit in an `int` are covered. It passes on the
  `Rdwr.WriteRaw` restriction, because the truncation is not modelled.
- `Rdwr.RawReply`: an allocation of a non-negative size is assumed to
  succeed. In the source, `new char[complen]` (rdwrops.cpp:195) can throw
  `std::bad_alloc` before any compressed byte is read, and
  `new char[len]` (rdwrops.cpp:200) can throw it for a large raw length.
  The model gives `bad_alloc` only for a negative raw length. The same
  assumption holds in `Rdwr.ReadString` (`new char[len + 1]`,
  rdwrops.cpp:103), in `Rdwr.ReadRaw`, and in `Rdwr.WriteRaw`
  (`new char[complen]`, rdwrops.cpp:158).
- Integer overflow is not modelled in
  `(numInputs + numOutputs) * bufferSize * sizeof(float)`, in
  `events * 3` or in `(pn - p0 + 1) * sizeof(float)`. Unbounded integers
  are used.
- `Client.RemotePluginClient.Process`: the output buffers must be distinct
  arrays, and neither inputs nor outputs may be the shared region. The
  source's behaviour when they overlap is not modelled.
- `Client.RemotePluginClient.SendMIDIData`: requires a non-negative event
  count and a data buffer and offset array long enough for it, which the
  source leaves to its caller. Its scratch `alloca` is modelled as
  `Bytes.Zeros`.
- `Client.RemotePluginClient.GetParameters`: requires
  `p0 <= pn + 1` and a buffer large enough for the reply, which the source
  leaves to its caller. The reply is seen as bytes, and
  `RoundTrip.ParametersRoundTrip` relates them to floats.
- `Client.RemotePluginClient.SizeShm`: when the source's `mmap` fails it
  forgets the previous mapping without `munmap`. The model records only
  that the region is gone, because it has no address space to leak from.
  `mapped == false` is the source's null test as written
  (`!m_shm`). A failing `mmap` or `mremap` returns `MAP_FAILED`, not
  null, so in the source a failure goes on to `memset` through
  `MAP_FAILED`. That path is not modelled.
- `Client.RemotePluginClient.SyncStartup`: when the one-byte handshake
  read itself fails, the source throws without calling `cleanup`. The
  model does the same.
- The destructor is not a separate member: it calls `cleanup`, which is
  `Client.RemotePluginClient.Cleanup`.
- The constructor is split in two. Its member initialisers are the Dafny
  constructor, and its body is `Client.RemotePluginClient.Setup`, so that
  both can be stated about one object.
- The `RemotePluginDebugLevel` enumeration is sent as the `int` it is.
- The numeric values of `RemotePluginOpcode` are declared in a header that
  is not part of this model. Any injective numbering is used.

/*
 * `RemotePluginClient`: the plugin-host side of the link to a remote VST
 * server. It makes three named FIFOs and a shared-memory file, waits for
 * the server to open them, then sends control requests on one FIFO, reads
 * the answers on a second, and drives audio processing through the third
 * FIFO and the shared-memory region.
 *
 * The FIFOs are the channels of the Pipe module; the descriptor fields
 * say whether the client has them open. File-system and memory-mapping
 * calls are represented by their results, passed in as parameters.
 */
module Client {
  import opened Bytes
  import opened Protocol
  import opened Pipe
  import opened Rdwr
  import opened Lifecycle

  /** `sizeof(bool)` */
  const BoolSize: nat := 1

  /** A `bool` read with `tryRead(fd, &b, sizeof(bool))`: any non-zero byte is true. */
  function BoolReply(fd: int, v: ReadView): (r: Reply<bool>)
    ensures r.status == Done || r.status == Threw(PluginClosed) || r.status == Stalled
    ensures r.status.Done? ==> 1 <= |v.pending| && r.value == (v.pending[0] != 0) && r.rest.pending == v.pending[1..]
  {
    var d := Fetch(fd, v, BoolSize);
    Reply(d.status, d.status.Done? && d.got[0] != 0, d.rest)
  }

  /** `bool b; tryRead(fd, &b, sizeof(bool))`: the handshake of `syncStartup` and the answers of `hasMIDIInput` and `warn`. */
  method ReadBool(fd: int, ch: ReadChannel) returns (st: Status, b: bool)
    modifies ch
    ensures var r := BoolReply(fd, old(ch.View()));
            st == r.status && ch.View() == r.rest && b == r.value
  {
    var buf := new byte[BoolSize];
    st := TryRead(fd, ch, buf, 0, BoolSize);
    b := st.Done? && buf[0] != 0;
  }

  /**
   * A request followed by its answer: when the request went out in full
   * the result is the answer read off the response channel; otherwise the
   * request's failure, with the response channel untouched.
   */
  predicate Answered<T(==)>(request: Posted, reply: Reply<T>, before: ReadView, st: Status, value: T, after: ReadView)
  {
    if request.status.Done? then st == reply.status && after == reply.rest && (st.Done? ==> value == reply.value)
    else st == request.status && after == before
  }

  /** The frame offsets `sendMIDIData` writes: the caller's, or zeros when it passed none. */
  function FrameOffsets(offsets: Option<seq<Int32>>, events: nat): (r: seq<Int32>)
    requires offsets.Some? ==> events <= |offsets.value|
    ensures |r| == events
    ensures offsets.None? ==> r == Zeros(events)
    ensures offsets.Some? ==> r == offsets.value[..events]
  {
    if offsets.None? then Zeros(events) else offsets.value[..events]
  }

  /** Segment `a` of a row of `w`-wide segments ends no later than segment `b` starts, when `a < b`. */
  lemma {:induction false} SegmentFits(a: nat, b: nat, w: nat)
    requires a < b
    ensures a * w + w <= b * w
    decreases b
  {
    if b > a + 1 {
      SegmentFits(a, b - 1, w);
      assert (b - 1) * w + w == b * w;
    } else {
      assert a * w + w == b * w;
    }
  }

  /** Segment `k` of a region laid out as `count` segments of `w` samples. */
  function Block(region: seq<Word>, count: nat, w: nat, k: nat): (b: seq<Word>)
    requires |region| == count * w && k < count
    ensures |b| == w
  {
    SegmentFits(k, count, w);
    region[k * w .. k * w + w]
  }

  /** The region with segment `j` overwritten by `x`. */
  function Overwrite(region: seq<Word>, count: nat, w: nat, j: nat, x: seq<Word>): (r: seq<Word>)
    requires |region| == count * w && j < count && |x| == w
    ensures |r| == |region|
  {
    SegmentFits(j, count, w);
    region[..j * w] + x + region[j * w + w..]
  }

  /** Overwriting segment `j` of a region changes segment `j` to the new samples and no other segment. */
  lemma BlockOfSplice(region: seq<Word>, count: nat, w: nat, j: nat, x: seq<Word>, k: nat)
    requires |region| == count * w && j < count && |x| == w && k < count
    ensures Block(Overwrite(region, count, w, j, x), count, w, k) == if k == j then x else Block(region, count, w, k)
  {
    SegmentFits(j, count, w);
    SegmentFits(k, count, w);
    var r := Overwrite(region, count, w, j, x);
    if k < j {
      SegmentFits(k, j, w);
      assert r[k * w .. k * w + w] == region[k * w .. k * w + w];
    } else if k > j {
      SegmentFits(j, k, w);
      assert r[k * w .. k * w + w] == region[k * w .. k * w + w];
    } else {
      assert r[k * w .. k * w + w] == x;
    }
  }

  /** `memcpy(dst + to, src + from, n)`, counted in samples. */
  method CopyBlock(src: array<Word>, from: nat, dst: array<Word>, to: nat, n: nat)
    requires src != dst && from + n <= src.Length && to + n <= dst.Length
    modifies dst
    ensures dst[..] == old(dst[..to]) + src[from .. from + n] + old(dst[to + n..])
  {
    var t := 0;
    while t < n
      invariant t <= n
      invariant dst[..] == old(dst[..to]) + src[from .. from + t] + old(dst[to + t..])
    {
      dst[to + t] := src[from + t];
      t := t + 1;
      assert src[from .. from + t] == src[from .. from + t - 1] + [src[from + t - 1]];
    }
  }

  /**
   * One retry loop of `syncStartup`: `open(name, O_WRONLY | O_NONBLOCK)`
   * at most `limit` times, stopping at the first descriptor or the first
   * error other than ENXIO. Returns the last `open` result and the number
   * of calls made.
   */
  method OpenRetrying(name: Option<string>, outcomes: seq<OpenResult>, limit: nat) returns (fd: int, tries: nat)
    requires 0 < limit <= |outcomes|
    ensures Retried(fd, tries) == RetryFrom(Effective(name, outcomes), 0, limit)
  {
    ghost var eff := Effective(name, outcomes);
    var attempt := 0;
    while attempt < limit
      invariant attempt <= limit
      invariant attempt < limit ==> RetryFrom(eff, attempt, limit) == RetryFrom(eff, 0, limit)
      invariant attempt == limit ==> RetryFrom(eff, 0, limit) == Retried(-1, limit)
    {
      var outcome := OpenOnce(name, outcomes[attempt]);
      if outcome >= 0 {
        return outcome, attempt + 1;
      } else if name.None? || outcomes[attempt] != NoReader {
        return -1, attempt + 1;
      }
      attempt := attempt + 1;
    }
    return -1, limit;
  }

  /** The handles after `syncStartup`'s three `open` steps, and the message of the first that failed. */
  datatype Opening = Opening(held: Handles, failure: Option<string>)

  /**
   * The `open` steps of `syncStartup` from handles `h`: the
   * control-request retry loop, the blocking control-response `open`, the
   * process retry loop. Each step keeps its result in its descriptor; the
   * first that fails stops the rest.
   */
  function OpenFifos(h: Handles, requestOpens: seq<OpenResult>, responseOpen: OpenResult, processOpens: seq<OpenResult>): (r: Opening)
    requires |requestOpens| >= ControlRequestAttempts && |processOpens| >= ProcessAttempts
    ensures r.held == h.(requestFd := r.held.requestFd, responseFd := r.held.responseFd, processFd := r.held.processFd)
    ensures r.failure.None? <==> r.held.requestFd >= 0 && r.held.responseFd >= 0 && r.held.processFd >= 0
    ensures r.failure.Some? ==> r.failure.value in {TimedOut, NoControlFifo, NoProcessFifo}
  {
    var rq := RetryFrom(Effective(h.requestName, requestOpens), 0, ControlRequestAttempts);
    var h1 := h.(requestFd := rq.fd);
    if rq.fd < 0 then Opening(h1, Some(TimedOut))
    else
      var rs := OpenOnce(h.responseName, responseOpen);
      var h2 := h1.(responseFd := rs);
      if rs < 0 then Opening(h2, Some(NoControlFifo))
      else
        var pr := RetryFrom(Effective(h.processName, processOpens), 0, ProcessAttempts);
        var h3 := h2.(processFd := pr.fd);
        if pr.fd < 0 then Opening(h3, Some(NoProcessFifo)) else Opening(h3, None)
  }

  /**
   * How `syncStartup` ends: its status, the handles after its `open`
   * calls, whether it called `cleanup` on them, and the control-response
   * read end afterwards.
   */
  datatype Startup = Startup(status: Status, held: Handles, cleaned: bool, rest: ReadView)

  /**
   * `syncStartup` from handles `h` and control-response read end `v`: the
   * `open` steps, then the server's `bool` handshake. A failed `open` and
   * a false handshake clean up and throw; a handshake read that fails
   * propagates its exception without cleaning up.
   */
  function StartupOf(h: Handles, requestOpens: seq<OpenResult>, responseOpen: OpenResult, processOpens: seq<OpenResult>, v: ReadView): (o: Startup)
    requires |requestOpens| >= ControlRequestAttempts && |processOpens| >= ProcessAttempts
    ensures o.cleaned <==> o.status.Threw? && o.status.e.Message?
    ensures o.cleaned ==> o.status.e.text in {TimedOut, NoControlFifo, NoProcessFifo, BadStart}
    ensures o.status.Done? ==> o.held.requestFd >= 0 && o.held.responseFd >= 0 && o.held.processFd >= 0
    ensures o.held == h.(requestFd := o.held.requestFd, responseFd := o.held.responseFd, processFd := o.held.processFd)
  {
    var op := OpenFifos(h, requestOpens, responseOpen, processOpens);
    if op.failure.Some? then Startup(Threw(Message(op.failure.value)), op.held, true, v)
    else
      var b := BoolReply(op.held.responseFd, v);
      DrainOutcome(v, BoolSize);
      if !b.status.Done? then Startup(b.status, op.held, false, b.rest)
      else if !b.value then Startup(Threw(Message(BadStart)), op.held, true, b.rest)
      else Startup(Done, op.held, false, b.rest)
  }

  /**
   * `syncStartup` succeeds exactly when the control-request FIFO opens
   * within 40 attempts, the control-response FIFO opens, the process FIFO
   * opens within 6 attempts, and the server answers `true`; each loop
   * gives up at its first error other than ENXIO.
   */
  lemma StartupSucceeds(h: Handles, requestOpens: seq<OpenResult>, responseOpen: OpenResult, processOpens: seq<OpenResult>, v: ReadView)
    requires |requestOpens| >= ControlRequestAttempts && |processOpens| >= ProcessAttempts
    requires h.requestName.Some? && h.responseName.Some? && h.processName.Some?
    ensures StartupOf(h, requestOpens, responseOpen, processOpens, v).status.Done? <==>
            && (exists k :: 0 <= k < ControlRequestAttempts && requestOpens[k].Opened? && forall j :: 0 <= j < k ==> requestOpens[j] == NoReader)
            && responseOpen.Opened?
            && (exists k :: 0 <= k < ProcessAttempts && processOpens[k].Opened? && forall j :: 0 <= j < k ==> processOpens[j] == NoReader)
            && (var d := Drain(v, BoolSize); d.status.Done? && d.got[0] != 0)
  {
    RetryConnects(requestOpens, 0, ControlRequestAttempts);
    RetryConnects(processOpens, 0, ProcessAttempts);
  }

  /** `memset(region, 0, size)` over a whole region. */
  method Zero(region: array<Word>)
    modifies region
    ensures forall k :: 0 <= k < region.Length ==> region[k] == ZeroWord
  {
    var i := 0;
    while i < region.Length
      invariant i <= region.Length
      invariant forall k :: 0 <= k < i ==> region[k] == ZeroWord
    {
      region[i] := ZeroWord;
      i := i + 1;
    }
  }

  class RemotePluginClient {
    var controlRequestFd: int
    var controlResponseFd: int
    var processFd: int
    var shmFd: int
    var controlRequestFileName: Option<string>
    var controlResponseFileName: Option<string>
    var processFileName: Option<string>
    var shmFileName: Option<string>
    /** The mapped shared-memory region as samples, or null when nothing is mapped. */
    var shm: array?<Word>
    /** The region's size in bytes, as `sizeShm` last set it. */
    var shmSize: int
    var bufferSize: int
    var numInputs: int
    var numOutputs: int
    /** The handles each `cleanup` so far found, in order: the `k`-th gave back `Releases(cleanups[k])`. */
    ghost var cleanups: seq<Handles>

    /** The control-request FIFO (client writes), the control-response FIFO (client reads), the process FIFO (client writes). */
    const controlRequest: WriteChannel
    const controlResponse: ReadChannel
    const process: WriteChannel
    /** The receive buffers of `rdwr_readString` and `rdwr_readRaw`. */
    const strings: Scratch
    const chunks: Scratch

    /** The descriptors and names the client holds, in declaration order. */
    function Holding(): Handles
      reads this`shm, this`controlRequestFd, this`controlResponseFd, this`processFd, this`shmFd
      reads this`controlRequestFileName, this`controlResponseFileName, this`processFileName, this`shmFileName
    {
      Handles(shm != null, controlRequestFd, controlResponseFd, processFd, shmFd,
              controlRequestFileName, controlResponseFileName, processFileName, shmFileName)
    }

    predicate Valid()
      reads this`shm, this`shmSize, this`bufferSize, this`numInputs, this`numOutputs
    {
      && controlRequest != process
      && (shm != null ==> shmSize == IntSize * shm.Length)
      && (shm != null && numInputs >= 0 && numOutputs >= 0 && bufferSize >= 0 ==> shm.Length == (numInputs + numOutputs) * bufferSize)
    }

    /** The state the member initialisers set up. */
    ghost predicate Initial()
      reads this
    {
      && controlRequestFd == -1 && controlResponseFd == -1 && processFd == -1 && shmFd == -1
      && controlRequestFileName.None? && controlResponseFileName.None? && processFileName.None? && shmFileName.None?
      && shm == null && shmSize == 0 && bufferSize == -1 && numInputs == -1 && numOutputs == -1
      && cleanups == []
    }

    /** The dimensions are known and a region is mapped: the guards `process` checks before it touches memory. */
    predicate Ready()
      reads this
    {
      bufferSize >= 0 && numInputs >= 0 && numOutputs >= 0 && shm != null
    }

    /**
     * The member initialisers. The channels stand for the three FIFOs; their
     * scripts say how the server will take and answer what the client sends.
     */
    constructor (requests: seq<WriteOutcome>, answers: seq<byte>, answerReads: seq<ReadOutcome>, processWrites: seq<WriteOutcome>)
      ensures Valid() && Initial()
      ensures controlRequest.View() == WriteView([], requests)
      ensures controlResponse.View() == ReadView(answers, answerReads)
      ensures process.View() == WriteView([], processWrites)
    {
      controlRequestFd, controlResponseFd, processFd, shmFd := -1, -1, -1, -1;
      controlRequestFileName, controlResponseFileName, processFileName, shmFileName := None, None, None, None;
      shm, shmSize := null, 0;
      bufferSize, numInputs, numOutputs := -1, -1, -1;
      cleanups := [];
      controlRequest := new WriteChannel(requests);
      controlResponse := new ReadChannel(answers, answerReads);
      process := new WriteChannel(processWrites);
      strings := new Scratch();
      chunks := new Scratch();
    }

    /**
     * `cleanup` (also the destructor): unmaps the region, closes every open
     * descriptor and unlinks and frees every name, in that order, and
     * forgets them; `Releases` of the handles it found is what it gave
     * back. The sizes stay as they were.
     */
    method Cleanup()
      requires Valid()
      modifies this
      ensures Valid()
      ensures Released(Holding())
      ensures shm == null
      ensures controlRequestFd == (if old(controlRequestFd) >= 0 then -1 else old(controlRequestFd))
      ensures controlResponseFd == (if old(controlResponseFd) >= 0 then -1 else old(controlResponseFd))
      ensures processFd == (if old(processFd) >= 0 then -1 else old(processFd))
      ensures shmFd == (if old(shmFd) >= 0 then -1 else old(shmFd))
      ensures Released(old(Holding())) ==> Holding() == old(Holding())
      ensures cleanups == old(cleanups) + [old(Holding())]
      ensures shmSize == old(shmSize) && bufferSize == old(bufferSize)
      ensures numInputs == old(numInputs) && numOutputs == old(numOutputs)
    {
      cleanups := cleanups + [Holding()];
      if shm != null {
        shm := null;
      }
      CloseDescriptors();
      RemoveNames();
    }

    /**
     * The constructor body, after the member initialisers: for each FIFO a
     * `mkstemp` name (`temps[k]`, None when `mkstemp` fails) and a `mkfifo`
     * (`fifos[k]`), then a name and an `open` for the shared-memory file.
     * The first step that fails calls `cleanup` and throws its message; a
     * body that completes holds the four names and the shared-memory
     * descriptor.
     */
    method Setup(temps: seq<Option<Suffix>>, fifos: seq<bool>, shmOpen: OpenResult) returns (st: Status)
      requires |temps| == 4 && |fifos| == 3
      requires Valid() && Initial()
      modifies this
      ensures Valid()
      ensures st == Outcome(SetupFailure(temps, fifos, shmOpen))
      ensures shm == null && shmSize == 0 && bufferSize == -1 && numInputs == -1 && numOutputs == -1
      ensures st.Done? ==> Holding() == Made(temps, 4).(shmFd := shmOpen.fd) && cleanups == []
      ensures !st.Done? ==> Released(Holding()) && cleanups == [Made(temps, NamesMade(temps, fifos))]
    {
      var failure := MakeFifoNames(temps, fifos, shmOpen);
      if failure.None? {
        if temps[3].None? {
          failure := Some(NoTempName);
        } else {
          shmFileName := Some(TempName(3, temps[3].value));
          shmFd := if shmOpen.Opened? then shmOpen.fd else -1;
          if shmFd < 0 {
            failure := Some(NoShmFile);
          }
        }
      }
      if failure.Some? {
        assert Holding() == Made(temps, NamesMade(temps, fifos));
        Cleanup();
        return Threw(Message(failure.value));
      }
      st := Done;
    }

    /**
     * The first three steps of the constructor body: for each FIFO in turn a
     * `mkstemp` name, kept at once, then its `mkfifo`. The message of the
     * first step that fails, or None when all three FIFOs exist.
     */
    method MakeFifoNames(temps: seq<Option<Suffix>>, fifos: seq<bool>, shmOpen: OpenResult) returns (failure: Option<string>)
      requires |temps| == 4 && |fifos| == 3
      modifies this`controlRequestFileName, this`controlResponseFileName, this`processFileName
      ensures failure.Some? ==> failure == SetupFailure(temps, fifos, shmOpen)
      ensures failure.None? <==> (forall k :: 0 <= k < 3 ==> temps[k].Some? && fifos[k])
      ensures controlRequestFileName == (if NamesMade(temps, fifos) > 0 then NameIf(temps, 0, NamesMade(temps, fifos)) else old(controlRequestFileName))
      ensures controlResponseFileName == (if NamesMade(temps, fifos) > 1 then NameIf(temps, 1, NamesMade(temps, fifos)) else old(controlResponseFileName))
      ensures processFileName == (if NamesMade(temps, fifos) > 2 then NameIf(temps, 2, NamesMade(temps, fifos)) else old(processFileName))
    {
      if temps[0].None? {
        return Some(NoTempName);
      }
      controlRequestFileName := Some(TempName(0, temps[0].value));
      if !fifos[0] {
        return Some(NoFifo);
      }
      if temps[1].None? {
        return Some(NoTempName);
      }
      controlResponseFileName := Some(TempName(1, temps[1].value));
      if !fifos[1] {
        return Some(NoFifo);
      }
      if temps[2].None? {
        return Some(NoTempName);
      }
      processFileName := Some(TempName(2, temps[2].value));
      if !fifos[2] {
        return Some(NoFifo);
      }
      return None;
    }

    /** The four names are there and each has a six-character tail. */
    predicate FileIdentifiersDefined()
      reads this
    {
      && controlRequestFileName.Some? && |controlRequestFileName.value| >= 6
      && controlResponseFileName.Some? && |controlResponseFileName.value| >= 6
      && processFileName.Some? && |processFileName.value| >= 6
      && shmFileName.Some? && |shmFileName.value| >= 6
    }

    /**
     * `getFileIdentifiers`: the last six characters of the four names, in
     * the order control request, control response, process, shared memory.
     */
    function FileIdentifiers(): (id: string)
      reads this
      requires FileIdentifiersDefined()
      ensures |id| == 24
      ensures id[..6] == Tail6(controlRequestFileName.value) && id[6..12] == Tail6(controlResponseFileName.value)
      ensures id[12..18] == Tail6(processFileName.value) && id[18..] == Tail6(shmFileName.value)
    {
      Identifiers(controlRequestFileName.value, controlResponseFileName.value, processFileName.value, shmFileName.value)
    }

    /**
     * `syncStartup`: opens the three FIFOs as `StartupOf` says, keeping
     * each `open` result in its descriptor field, and reads the handshake.
     * When it cleans up, `cleanup` finds the handles the `open` calls left.
     */
    method SyncStartup(requestOpens: seq<OpenResult>, responseOpen: OpenResult, processOpens: seq<OpenResult>) returns (st: Status)
      requires Valid()
      requires |requestOpens| >= ControlRequestAttempts && |processOpens| >= ProcessAttempts
      modifies this, controlResponse
      ensures Valid()
      ensures var o := StartupOf(old(Holding()), requestOpens, responseOpen, processOpens, old(controlResponse.View()));
              && st == o.status && controlResponse.View() == o.rest
              && (o.cleaned ==> Released(Holding()) && cleanups == old(cleanups) + [o.held])
              && (!o.cleaned ==> Holding() == o.held && shm == old(shm) && cleanups == old(cleanups))
      ensures shmSize == old(shmSize) && bufferSize == old(bufferSize)
      ensures numInputs == old(numInputs) && numOutputs == old(numOutputs)
    {
      ghost var v := controlResponse.View();
      ghost var op := OpenFifos(Holding(), requestOpens, responseOpen, processOpens);
      var failure := OpenDescriptors(requestOpens, responseOpen, processOpens);
      assert Holding() == op.held && failure == op.failure;
      if failure.Some? {
        Cleanup();
        return Threw(Message(failure.value));
      }
      ghost var b := BoolReply(controlResponseFd, v);
      var ok;
      st, ok := ReadBool(controlResponseFd, controlResponse);
      assert st == b.status && ok == b.value;
      if !st.Done? {
        return;
      }
      if !ok {
        Cleanup();
        return Threw(Message(BadStart));
      }
    }

    /** The `open` steps of `syncStartup`, as `OpenFifos` says, each result kept in its descriptor. */
    method OpenDescriptors(requestOpens: seq<OpenResult>, responseOpen: OpenResult, processOpens: seq<OpenResult>) returns (failure: Option<string>)
      requires |requestOpens| >= ControlRequestAttempts && |processOpens| >= ProcessAttempts
      modifies this`controlRequestFd, this`controlResponseFd, this`processFd
      ensures var r := OpenFifos(old(Holding()), requestOpens, responseOpen, processOpens);
              && failure == r.failure
              && controlRequestFd == r.held.requestFd && controlResponseFd == r.held.responseFd && processFd == r.held.processFd
    {
      var fd, tries := OpenRetrying(controlRequestFileName, requestOpens, ControlRequestAttempts);
      controlRequestFd := fd;
      if fd < 0 {
        return Some(TimedOut);
      }
      controlResponseFd := OpenOnce(controlResponseFileName, responseOpen);
      if controlResponseFd < 0 {
        return Some(NoControlFifo);
      }
      fd, tries := OpenRetrying(processFileName, processOpens, ProcessAttempts);
      processFd := fd;
      if fd < 0 {
        return Some(NoProcessFifo);
      }
      failure := None;
    }

    /** The dimensions `sizeShm` works from are all known. */
    predicate Dimensioned()
      reads this
    {
      numInputs >= 0 && numOutputs >= 0 && bufferSize >= 0
    }

    /** The region's segments: the inputs, then the outputs. */
    function Segments(): nat
      reads this
      requires Dimensioned()
    {
      numInputs + numOutputs
    }

    /** The samples of the region: `numInputs` input segments, then `numOutputs` output segments, each `bufferSize` long. */
    function Samples(): nat
      reads this
      requires Dimensioned()
    {
      Segments() * bufferSize
    }

    /**
     * What `sizeShm` does, `mapped` saying whether `mmap` or `mremap`
     * handed back a region: nothing while a dimension is unknown;
     * otherwise a zero-filled region of `Samples()` samples whose size in
     * bytes is recorded, or no region and size 0.
     */
    twostate predicate Resized(mapped: bool)
      reads this, shm
      ensures Resized(mapped) && Dimensioned() ==>
                (shm != null <==> mapped) && (shm != null ==> shmSize == IntSize * shm.Length)
    {
      if !Dimensioned() then shm == old(shm) && shmSize == old(shmSize)
      else if mapped then
        && shm != null && fresh(shm)
        && shm.Length == Samples() && shmSize == IntSize * Samples()
        && forall k :: 0 <= k < shm.Length ==> shm[k] == ZeroWord
      else shm == null && shmSize == 0
    }

    /**
     * `sizeShm`: sizes the shared-memory region to the current dimensions
     * and zero-fills it. `mremap` may move the region, so the region is a
     * new array; a region the call fails to map is forgotten, not unmapped.
     */
    method SizeShm(mapped: bool)
      requires controlRequest != process && (shm != null ==> shmSize == IntSize * shm.Length)
      modifies this`shm, this`shmSize
      ensures Valid()
      ensures Resized(mapped)
    {
      if numInputs < 0 || numOutputs < 0 || bufferSize < 0 {
        return;
      }
      var size := (numInputs + numOutputs) * bufferSize;
      if mapped {
        var region := new Word[size];
        Zero(region);
        shm := region;
        shmSize := IntSize * size;
      } else {
        shm := null;
        shmSize := 0;
      }
    }

    /**
     * `setBufferSize`: an unchanged size does nothing at all. Otherwise it
     * records the size, resizes the region, then asks the server to reset
     * on the control-request FIFO and sends the size on the process FIFO.
     */
    method SetBufferSize(size: Int32, mapped: bool) returns (st: Status)
      requires Valid()
      modifies this`bufferSize, this`shm, this`shmSize, controlRequest, process
      ensures Valid()
      ensures size == old(bufferSize) ==>
                && st == Done && bufferSize == old(bufferSize) && shm == old(shm) && shmSize == old(shmSize)
                && controlRequest.View() == old(controlRequest.View()) && process.View() == old(process.View())
      ensures size != old(bufferSize) ==>
                && bufferSize == size && Resized(mapped)
                && var reset := Put(controlRequestFd, old(controlRequest.View()), OpcodeBytes(Protocol.Reset));
                   && controlRequest.View() == reset.after
                   && if reset.status.Done? then Posted(st, process.View()) == Put(processFd, old(process.View()), EncodeInt(size))
                      else st == reset.status && process.View() == old(process.View())
    {
      if size == bufferSize {
        return Done;
      }
      bufferSize := size;
      SizeShm(mapped);
      st := WriteOpcode(controlRequestFd, controlRequest, Protocol.Reset);
      if !st.Done? {
        return;
      }
      st := WriteInt(processFd, process, size);
    }

    /**
     * `reset`: sends the Reset opcode on the process FIFO, then clears the
     * region when its recorded size is positive. A recorded size with no
     * region (after `cleanup`, which keeps the size) clears through a null
     * pointer.
     */
    method Reset() returns (st: Status)
      requires Valid()
      modifies process, shm
      ensures var sent := Put(processFd, old(process.View()), OpcodeBytes(Protocol.Reset));
              && process.View() == sent.after
              && st == (if sent.status.Done? && shmSize > 0 && shm == null then Undefined else sent.status)
              && (shm != null ==>
                    if sent.status.Done? && shmSize > 0 then forall k :: 0 <= k < shm.Length ==> shm[k] == ZeroWord
                    else shm[..] == old(shm[..]))
    {
      st := WriteOpcode(processFd, process, Protocol.Reset);
      if !st.Done? {
        return;
      }
      if shmSize > 0 {
        if shm == null {
          return Undefined;
        }
        Zero(shm);
      }
    }

    /**
     * `getInputCount`: asks the server, records the answer, resizes the
     * region and returns the answer. A request or answer that fails throws
     * before anything is recorded.
     */
    method GetInputCount(mapped: bool) returns (st: Status, count: Int32)
      requires Valid()
      modifies this`numInputs, this`shm, this`shmSize, controlRequest, controlResponse
      ensures Valid()
      ensures var ask := Put(controlRequestFd, old(controlRequest.View()), OpcodeBytes(Protocol.GetInputCount));
              && controlRequest.View() == ask.after
              && Answered(ask, IntReply(controlResponseFd, old(controlResponse.View())), old(controlResponse.View()), st, count, controlResponse.View())
      ensures st.Done? ==> numInputs == count && Resized(mapped)
      ensures !st.Done? ==> numInputs == old(numInputs) && shm == old(shm) && shmSize == old(shmSize)
    {
      st := WriteOpcode(controlRequestFd, controlRequest, Protocol.GetInputCount);
      if !st.Done? {
        return st, 0;
      }
      st, count := ReadInt(controlResponseFd, controlResponse);
      if !st.Done? {
        return;
      }
      numInputs := count;
      SizeShm(mapped);
    }

    /** `getOutputCount`: as `getInputCount`, for the outputs. */
    method GetOutputCount(mapped: bool) returns (st: Status, count: Int32)
      requires Valid()
      modifies this`numOutputs, this`shm, this`shmSize, controlRequest, controlResponse
      ensures Valid()
      ensures var ask := Put(controlRequestFd, old(controlRequest.View()), OpcodeBytes(Protocol.GetOutputCount));
              && controlRequest.View() == ask.after
              && Answered(ask, IntReply(controlResponseFd, old(controlResponse.View())), old(controlResponse.View()), st, count, controlResponse.View())
      ensures st.Done? ==> numOutputs == count && Resized(mapped)
      ensures !st.Done? ==> numOutputs == old(numOutputs) && shm == old(shm) && shmSize == old(shmSize)
    {
      st := WriteOpcode(controlRequestFd, controlRequest, Protocol.GetOutputCount);
      if !st.Done? {
        return st, 0;
      }
      st, count := ReadInt(controlResponseFd, controlResponse);
      if !st.Done? {
        return;
      }
      numOutputs := count;
      SizeShm(mapped);
    }

    /** An input buffer of at least one block for each input, none of them the region. */
    predicate InputBuffers(inputs: seq<array<Word>>)
      reads this
    {
      && |inputs| >= numInputs
      && forall j :: 0 <= j < numInputs ==> inputs[j].Length >= bufferSize && inputs[j] != shm
    }

    /** An output buffer of at least one block for each output, none of them the region, none given twice. */
    predicate OutputBuffers(outputs: seq<array<Word>>)
      reads this
    {
      && |outputs| >= numOutputs
      && (forall i :: 0 <= i < numOutputs ==> outputs[i].Length >= bufferSize && outputs[i] != shm)
      && (forall i, i' :: 0 <= i < i' < numOutputs ==> outputs[i] != outputs[i'])
    }

    /** The output buffers `process` fills: the first `numOutputs` of `outputs`. */
    function Filled(outputs: seq<array<Word>>): set<array<Word>>
      reads this
    {
      set i | 0 <= i < numOutputs && i < |outputs| :: outputs[i]
    }

    /**
     * `process`: unless a dimension is unknown or no region is mapped, it
     * hands each output buffer the region's output segment as it was
     * before the call (the block the server computed last time), then
     * overwrites each input segment with the caller's input, leaves the
     * output segments alone, and sends one Process opcode on the process
     * FIFO. Samples past the first block of an output buffer are kept.
     */
    method Process(inputs: seq<array<Word>>, outputs: seq<array<Word>>) returns (st: Status)
      requires Valid()
      requires Ready() ==> InputBuffers(inputs) && OutputBuffers(outputs)
      modifies shm, process, Filled(outputs)
      ensures !Ready() ==> st == Done && process.View() == old(process.View())
      ensures !Ready() ==> shm == null || shm[..] == old(shm[..])
      ensures !Ready() ==> forall i :: 0 <= i < numOutputs && i < |outputs| ==> outputs[i][..] == old(outputs[i][..])
      ensures Ready() ==> forall i :: 0 <= i < numOutputs ==>
                            outputs[i][..bufferSize] == Block(old(shm[..]), Segments(), bufferSize, numInputs + i)
                            && outputs[i][bufferSize..] == old(outputs[i][bufferSize..])
      ensures Ready() ==> forall j :: 0 <= j < numInputs ==> Block(shm[..], Segments(), bufferSize, j) == inputs[j][..bufferSize]
      ensures Ready() ==> forall k :: numInputs <= k < Segments() ==>
                            Block(shm[..], Segments(), bufferSize, k) == Block(old(shm[..]), Segments(), bufferSize, k)
      ensures Ready() ==> Posted(st, process.View()) == Put(processFd, old(process.View()), OpcodeBytes(Protocol.Process))
    {
      if bufferSize < 0 || numInputs < 0 || numOutputs < 0 || shm == null {
        return Done;
      }
      FetchOutputs(outputs);
      StoreInputs(inputs);
      st := WriteOpcode(processFd, process, Protocol.Process);
    }

    /** The first loop of `process`: each output buffer gets its output segment of the region. */
    method FetchOutputs(outputs: seq<array<Word>>)
      requires Valid() && Ready() && OutputBuffers(outputs)
      modifies Filled(outputs)
      ensures forall i :: 0 <= i < numOutputs ==>
                outputs[i][..bufferSize] == Block(shm[..], Segments(), bufferSize, numInputs + i)
                && outputs[i][bufferSize..] == old(outputs[i][bufferSize..])
    {
      var i := 0;
      while i < numOutputs
        invariant i <= numOutputs
        invariant forall i' :: 0 <= i' < i ==>
                    outputs[i'][..bufferSize] == Block(shm[..], Segments(), bufferSize, numInputs + i')
                    && outputs[i'][bufferSize..] == old(outputs[i'][bufferSize..])
        invariant forall i' :: i <= i' < numOutputs ==> outputs[i'][..] == old(outputs[i'][..])
      {
        FetchOutput(outputs, i);
        i := i + 1;
      }
    }

    /** One turn of that loop: output buffer `i` gets output segment `numInputs + i`. */
    method FetchOutput(outputs: seq<array<Word>>, i: nat)
      requires Valid() && Ready() && OutputBuffers(outputs) && i < numOutputs
      modifies outputs[i]
      ensures outputs[i][..bufferSize] == Block(shm[..], Segments(), bufferSize, numInputs + i)
      ensures outputs[i][bufferSize..] == old(outputs[i][bufferSize..])
    {
      SegmentFits(numInputs + i, Segments(), bufferSize);
      CopyBlock(shm, (numInputs + i) * bufferSize, outputs[i], 0, bufferSize);
    }

    /** The second loop of `process`: each input segment of the region gets its input buffer. */
    method StoreInputs(inputs: seq<array<Word>>)
      requires Valid() && Ready() && InputBuffers(inputs)
      modifies shm
      ensures forall j :: 0 <= j < numInputs ==> Block(shm[..], Segments(), bufferSize, j) == inputs[j][..bufferSize]
      ensures forall k :: numInputs <= k < Segments() ==> Block(shm[..], Segments(), bufferSize, k) == Block(old(shm[..]), Segments(), bufferSize, k)
    {
      var j := 0;
      while j < numInputs
        invariant j <= numInputs
        invariant forall j' :: 0 <= j' < j ==> Block(shm[..], Segments(), bufferSize, j') == inputs[j'][..bufferSize]
        invariant forall k :: j <= k < Segments() ==> Block(shm[..], Segments(), bufferSize, k) == Block(old(shm[..]), Segments(), bufferSize, k)
      {
        ghost var before := shm[..];
        StoreInput(inputs, j);
        forall k | 0 <= k < Segments()
          ensures Block(shm[..], Segments(), bufferSize, k) == if k == j then inputs[j][..bufferSize] else Block(before, Segments(), bufferSize, k)
        {
          BlockOfSplice(before, Segments(), bufferSize, j, inputs[j][..bufferSize], k);
        }
        j := j + 1;
      }
    }

    /** One turn of that loop: input segment `j` gets input buffer `j`. */
    method StoreInput(inputs: seq<array<Word>>, j: nat)
      requires Valid() && Ready() && InputBuffers(inputs) && j < numInputs
      modifies shm
      ensures shm[..] == Overwrite(old(shm[..]), Segments(), bufferSize, j, inputs[j][..bufferSize])
    {
      SegmentFits(j, Segments(), bufferSize);
      CopyBlock(inputs[j], 0, shm, j * bufferSize, bufferSize);
    }

    /**
     * `sendMIDIData`: on the process FIFO, the opcode, then the MIDI frame
     * of `events` events: their count, three data bytes each, and a frame
     * offset each, zeros when the caller passed none.
     */
    method SendMIDIData(data: seq<byte>, offsets: Option<seq<Int32>>, events: Int32) returns (st: Status)
      requires 0 <= events && 3 * events <= |data|
      requires offsets.Some? ==> events <= |offsets.value|
      modifies process
      ensures Posted(st, process.View()) ==
              PutAll(processFd, old(process.View()),
                     [OpcodeBytes(Protocol.SendMIDIData)] + MidiPieces(events, data[..3 * events], FrameOffsets(offsets, events)))
    {
      var frames := if offsets.None? then Zeros(events) else offsets.value[..events];
      PutAllCons(processFd, process.View(), OpcodeBytes(Protocol.SendMIDIData), MidiPieces(events, data[..3 * events], frames));
      st := WriteOpcode(processFd, process, Protocol.SendMIDIData);
      if !st.Done? {
        return;
      }
      PutAllCons(processFd, process.View(), EncodeInt(events), [data[..3 * events], EncodeInts(frames)]);
      st := WriteInt(processFd, process, events);
      if !st.Done? {
        return;
      }
      PutAllCons(processFd, process.View(), data[..3 * events], [EncodeInts(frames)]);
      st := TryWrite(processFd, process, data[..3 * events]);
      if !st.Done? {
        return;
      }
      PutAllCons(processFd, process.View(), EncodeInts(frames), []);
      st := TryWrite(processFd, process, EncodeInts(frames));
    }

    // ------------------------------------------------------------ control requests with an answer

    /** `getVersion`: the opcode, then a float answer. */
    method GetVersion() returns (st: Status, version: Word)
      modifies controlRequest, controlResponse
      ensures var ask := Put(controlRequestFd, old(controlRequest.View()), OpcodeBytes(Protocol.GetVersion));
              && controlRequest.View() == ask.after
              && Answered(ask, FloatReply(controlResponseFd, old(controlResponse.View())), old(controlResponse.View()), st, version, controlResponse.View())
    {
      st := WriteOpcode(controlRequestFd, controlRequest, Protocol.GetVersion);
      if !st.Done? {
        return st, ZeroWord;
      }
      st, version := ReadFloat(controlResponseFd, controlResponse);
    }

    /** `getName`: the opcode, then a string answer. */
    method GetName() returns (st: Status, name: seq<byte>)
      modifies controlRequest, controlResponse, strings, strings.buf
      ensures var ask := Put(controlRequestFd, old(controlRequest.View()), OpcodeBytes(Protocol.GetName));
              && controlRequest.View() == ask.after
              && Answered(ask, StringReply(controlResponseFd, old(controlResponse.View())), old(controlResponse.View()), st, name, controlResponse.View())
    {
      st := WriteOpcode(controlRequestFd, controlRequest, Protocol.GetName);
      if !st.Done? {
        return st, [];
      }
      st, name := ReadString(controlResponseFd, controlResponse, strings);
    }

    /** `getMaker`: the opcode, then a string answer. */
    method GetMaker() returns (st: Status, maker: seq<byte>)
      modifies controlRequest, controlResponse, strings, strings.buf
      ensures var ask := Put(controlRequestFd, old(controlRequest.View()), OpcodeBytes(Protocol.GetMaker));
              && controlRequest.View() == ask.after
              && Answered(ask, StringReply(controlResponseFd, old(controlResponse.View())), old(controlResponse.View()), st, maker, controlResponse.View())
    {
      st := WriteOpcode(controlRequestFd, controlRequest, Protocol.GetMaker);
      if !st.Done? {
        return st, [];
      }
      st, maker := ReadString(controlResponseFd, controlResponse, strings);
    }

    /** `getParameterCount`: the opcode, then an int answer. */
    method GetParameterCount() returns (st: Status, count: Int32)
      modifies controlRequest, controlResponse
      ensures var ask := Put(controlRequestFd, old(controlRequest.View()), OpcodeBytes(Protocol.GetParameterCount));
              && controlRequest.View() == ask.after
              && Answered(ask, IntReply(controlResponseFd, old(controlResponse.View())), old(controlResponse.View()), st, count, controlResponse.View())
    {
      st := WriteOpcode(controlRequestFd, controlRequest, Protocol.GetParameterCount);
      if !st.Done? {
        return st, 0;
      }
      st, count := ReadInt(controlResponseFd, controlResponse);
    }

    /** `getProgramCount`: the opcode, then an int answer. */
    method GetProgramCount() returns (st: Status, count: Int32)
      modifies controlRequest, controlResponse
      ensures var ask := Put(controlRequestFd, old(controlRequest.View()), OpcodeBytes(Protocol.GetProgramCount));
              && controlRequest.View() == ask.after
              && Answered(ask, IntReply(controlResponseFd, old(controlResponse.View())), old(controlResponse.View()), st, count, controlResponse.View())
    {
      st := WriteOpcode(controlRequestFd, controlRequest, Protocol.GetProgramCount);
      if !st.Done? {
        return st, 0;
      }
      st, count := ReadInt(controlResponseFd, controlResponse);
    }

    /** `getParameterName`: the opcode and the parameter number, then a string answer. */
    method GetParameterName(p: Int32) returns (st: Status, name: seq<byte>)
      modifies controlRequest, controlResponse, strings, strings.buf
      ensures var ask := PutAll(controlRequestFd, old(controlRequest.View()), [OpcodeBytes(Protocol.GetParameterName), EncodeInt(p)]);
              && controlRequest.View() == ask.after
              && Answered(ask, StringReply(controlResponseFd, old(controlResponse.View())), old(controlResponse.View()), st, name, controlResponse.View())
    {
      PutAllCons(controlRequestFd, controlRequest.View(), OpcodeBytes(Protocol.GetParameterName), [EncodeInt(p)]);
      st := WriteOpcode(controlRequestFd, controlRequest, Protocol.GetParameterName);
      if !st.Done? {
        return st, [];
      }
      PutAllCons(controlRequestFd, controlRequest.View(), EncodeInt(p), []);
      st := WriteInt(controlRequestFd, controlRequest, p);
      if !st.Done? {
        return st, [];
      }
      st, name := ReadString(controlResponseFd, controlResponse, strings);
    }

    /** `getProgramName`: the opcode and the program number, then a string answer. */
    method GetProgramName(n: Int32) returns (st: Status, name: seq<byte>)
      modifies controlRequest, controlResponse, strings, strings.buf
      ensures var ask := PutAll(controlRequestFd, old(controlRequest.View()), [OpcodeBytes(Protocol.GetProgramName), EncodeInt(n)]);
              && controlRequest.View() == ask.after
              && Answered(ask, StringReply(controlResponseFd, old(controlResponse.View())), old(controlResponse.View()), st, name, controlResponse.View())
    {
      PutAllCons(controlRequestFd, controlRequest.View(), OpcodeBytes(Protocol.GetProgramName), [EncodeInt(n)]);
      st := WriteOpcode(controlRequestFd, controlRequest, Protocol.GetProgramName);
      if !st.Done? {
        return st, [];
      }
      PutAllCons(controlRequestFd, controlRequest.View(), EncodeInt(n), []);
      st := WriteInt(controlRequestFd, controlRequest, n);
      if !st.Done? {
        return st, [];
      }
      st, name := ReadString(controlResponseFd, controlResponse, strings);
    }

    /** `getParameter`: the opcode and the parameter number, then a float answer. */
    method GetParameter(p: Int32) returns (st: Status, value: Word)
      modifies controlRequest, controlResponse
      ensures var ask := PutAll(controlRequestFd, old(controlRequest.View()), [OpcodeBytes(Protocol.GetParameter), EncodeInt(p)]);
              && controlRequest.View() == ask.after
              && Answered(ask, FloatReply(controlResponseFd, old(controlResponse.View())), old(controlResponse.View()), st, value, controlResponse.View())
    {
      PutAllCons(controlRequestFd, controlRequest.View(), OpcodeBytes(Protocol.GetParameter), [EncodeInt(p)]);
      st := WriteOpcode(controlRequestFd, controlRequest, Protocol.GetParameter);
      if !st.Done? {
        return st, ZeroWord;
      }
      PutAllCons(controlRequestFd, controlRequest.View(), EncodeInt(p), []);
      st := WriteInt(controlRequestFd, controlRequest, p);
      if !st.Done? {
        return st, ZeroWord;
      }
      st, value := ReadFloat(controlResponseFd, controlResponse);
    }

    /** `getParameterDefault`: the opcode and the parameter number, then a float answer. */
    method GetParameterDefault(p: Int32) returns (st: Status, value: Word)
      modifies controlRequest, controlResponse
      ensures var ask := PutAll(controlRequestFd, old(controlRequest.View()), [OpcodeBytes(Protocol.GetParameterDefault), EncodeInt(p)]);
              && controlRequest.View() == ask.after
              && Answered(ask, FloatReply(controlResponseFd, old(controlResponse.View())), old(controlResponse.View()), st, value, controlResponse.View())
    {
      PutAllCons(controlRequestFd, controlRequest.View(), OpcodeBytes(Protocol.GetParameterDefault), [EncodeInt(p)]);
      st := WriteOpcode(controlRequestFd, controlRequest, Protocol.GetParameterDefault);
      if !st.Done? {
        return st, ZeroWord;
      }
      PutAllCons(controlRequestFd, controlRequest.View(), EncodeInt(p), []);
      st := WriteInt(controlRequestFd, controlRequest, p);
      if !st.Done? {
        return st, ZeroWord;
      }
      st, value := ReadFloat(controlResponseFd, controlResponse);
    }

    /**
     * `getParameters`: the opcode and the first and last parameter numbers,
     * then `pn - p0 + 1` floats read straight into the caller's array
     * (seen here as bytes). A read that fails part-way leaves what it got
     * in the array.
     */
    method GetParameters(p0: Int32, pn: Int32, v: array<byte>) returns (st: Status)
      requires p0 <= pn + 1 && IntSize * (pn - p0 + 1) <= v.Length
      modifies controlRequest, controlResponse, v
      ensures var ask := PutAll(controlRequestFd, old(controlRequest.View()), [OpcodeBytes(Protocol.GetParameters), EncodeInt(p0), EncodeInt(pn)]);
              && controlRequest.View() == ask.after
              && if ask.status.Done? then
                   var d := Fetch(controlResponseFd, old(controlResponse.View()), IntSize * (pn - p0 + 1));
                   st == d.status && controlResponse.View() == d.rest && v[..] == d.got + old(v[|d.got|..])
                 else st == ask.status && controlResponse.View() == old(controlResponse.View()) && v[..] == old(v[..])
    {
      PutAllCons(controlRequestFd, controlRequest.View(), OpcodeBytes(Protocol.GetParameters), [EncodeInt(p0), EncodeInt(pn)]);
      st := WriteOpcode(controlRequestFd, controlRequest, Protocol.GetParameters);
      if !st.Done? {
        return;
      }
      PutAllCons(controlRequestFd, controlRequest.View(), EncodeInt(p0), [EncodeInt(pn)]);
      st := WriteInt(controlRequestFd, controlRequest, p0);
      if !st.Done? {
        return;
      }
      PutAllCons(controlRequestFd, controlRequest.View(), EncodeInt(pn), []);
      st := WriteInt(controlRequestFd, controlRequest, pn);
      if !st.Done? {
        return;
      }
      st := TryRead(controlResponseFd, controlResponse, v, 0, IntSize * (pn - p0 + 1));
    }

    /** `hasMIDIInput`: the opcode, then a `bool` answer. */
    method HasMIDIInput() returns (st: Status, b: bool)
      modifies controlRequest, controlResponse
      ensures var ask := Put(controlRequestFd, old(controlRequest.View()), OpcodeBytes(Protocol.HasMIDIInput));
              && controlRequest.View() == ask.after
              && Answered(ask, BoolReply(controlResponseFd, old(controlResponse.View())), old(controlResponse.View()), st, b, controlResponse.View())
    {
      st := WriteOpcode(controlRequestFd, controlRequest, Protocol.HasMIDIInput);
      if !st.Done? {
        return st, false;
      }
      st, b := ReadBool(controlResponseFd, controlResponse);
    }

    /** `warn`: the opcode and the message, then a `bool` answer. */
    method Warn(message: seq<byte>) returns (st: Status, b: bool)
      requires |message| <= MaxInt
      modifies controlRequest, controlResponse
      ensures var ask := PutAll(controlRequestFd, old(controlRequest.View()), [OpcodeBytes(Protocol.Warn)] + StringPieces(message));
              && controlRequest.View() == ask.after
              && Answered(ask, BoolReply(controlResponseFd, old(controlResponse.View())), old(controlResponse.View()), st, b, controlResponse.View())
    {
      PutAllCons(controlRequestFd, controlRequest.View(), OpcodeBytes(Protocol.Warn), StringPieces(message));
      st := WriteOpcode(controlRequestFd, controlRequest, Protocol.Warn);
      if !st.Done? {
        return st, false;
      }
      st := WriteString(controlRequestFd, controlRequest, message);
      if !st.Done? {
        return st, false;
      }
      st, b := ReadBool(controlResponseFd, controlResponse);
    }

    /** `getVSTChunk`: the opcode, then a raw chunk answer. */
    method GetVSTChunk(inflate: Inflate) returns (st: Status, chunk: seq<byte>)
      modifies controlRequest, controlResponse, chunks, chunks.buf
      ensures var ask := Put(controlRequestFd, old(controlRequest.View()), OpcodeBytes(Protocol.GetVSTChunk));
              && controlRequest.View() == ask.after
              && Answered(ask, RawReply(controlResponseFd, old(controlResponse.View()), inflate), old(controlResponse.View()), st, chunk, controlResponse.View())
    {
      st := WriteOpcode(controlRequestFd, controlRequest, Protocol.GetVSTChunk);
      if !st.Done? {
        return st, [];
      }
      st, chunk := ReadRaw(controlResponseFd, controlResponse, chunks, inflate);
    }

    // ------------------------------------------------------------ control requests without an answer

    /** `terminate`: the opcode alone. */
    method Terminate() returns (st: Status)
      modifies controlRequest
      ensures Posted(st, controlRequest.View()) == Put(controlRequestFd, old(controlRequest.View()), OpcodeBytes(Protocol.Terminate))
    {
      st := WriteOpcode(controlRequestFd, controlRequest, Protocol.Terminate);
    }

    /** `hideGUI`: the opcode alone. */
    method HideGUI() returns (st: Status)
      modifies controlRequest
      ensures Posted(st, controlRequest.View()) == Put(controlRequestFd, old(controlRequest.View()), OpcodeBytes(Protocol.HideGUI))
    {
      st := WriteOpcode(controlRequestFd, controlRequest, Protocol.HideGUI);
    }

    /** `showGUI`: the opcode, then the GUI data as a string. */
    method ShowGUI(guiData: seq<byte>) returns (st: Status)
      requires |guiData| <= MaxInt
      modifies controlRequest
      ensures Posted(st, controlRequest.View()) == PutAll(controlRequestFd, old(controlRequest.View()), [OpcodeBytes(Protocol.ShowGUI)] + StringPieces(guiData))
    {
      PutAllCons(controlRequestFd, controlRequest.View(), OpcodeBytes(Protocol.ShowGUI), StringPieces(guiData));
      st := WriteOpcode(controlRequestFd, controlRequest, Protocol.ShowGUI);
      if !st.Done? {
        return;
      }
      st := WriteString(controlRequestFd, controlRequest, guiData);
    }

    /** `setDebugLevel`: the opcode, then the level, an enumeration written as its `int`. */
    method SetDebugLevel(level: Int32) returns (st: Status)
      modifies controlRequest
      ensures Posted(st, controlRequest.View()) == PutAll(controlRequestFd, old(controlRequest.View()), [OpcodeBytes(Protocol.SetDebugLevel), EncodeInt(level)])
    {
      PutAllCons(controlRequestFd, controlRequest.View(), OpcodeBytes(Protocol.SetDebugLevel), [EncodeInt(level)]);
      st := WriteOpcode(controlRequestFd, controlRequest, Protocol.SetDebugLevel);
      if !st.Done? {
        return;
      }
      PutAllCons(controlRequestFd, controlRequest.View(), EncodeInt(level), []);
      st := TryWrite(controlRequestFd, controlRequest, EncodeInt(level));
    }

    /**
     * `setVSTChunk`: the opcode, then the chunk as a raw frame. A compressor
     * failure throws after the opcode has gone out.
     */
    method SetVSTChunk(chunk: seq<byte>, deflate: Deflate) returns (st: Status)
      requires |chunk| <= MaxInt
      requires deflate(chunk).Some? ==> |deflate(chunk).value| <= MaxInt
      modifies controlRequest
      ensures var op := Put(controlRequestFd, old(controlRequest.View()), OpcodeBytes(Protocol.SetVSTChunk));
              if op.status.Done? && deflate(chunk).None? then st == Threw(PluginClosed) && controlRequest.View() == op.after
              else if op.status.Done? then
                Posted(st, controlRequest.View()) == PutAll(controlRequestFd, old(controlRequest.View()), [OpcodeBytes(Protocol.SetVSTChunk)] + RawPieces(deflate(chunk).value, |chunk|))
              else Posted(st, controlRequest.View()) == op
    {
      if deflate(chunk).Some? {
        PutAllCons(controlRequestFd, controlRequest.View(), OpcodeBytes(Protocol.SetVSTChunk), RawPieces(deflate(chunk).value, |chunk|));
      }
      st := WriteOpcode(controlRequestFd, controlRequest, Protocol.SetVSTChunk);
      if !st.Done? {
        return;
      }
      st := WriteRaw(controlRequestFd, controlRequest, chunk, deflate);
    }

    // ------------------------------------------------------------ process requests

    /** `setSampleRate`: on the process FIFO, the opcode, then the rate. */
    method SetSampleRate(rate: Int32) returns (st: Status)
      modifies process
      ensures Posted(st, process.View()) == PutAll(processFd, old(process.View()), [OpcodeBytes(Protocol.SetSampleRate), EncodeInt(rate)])
    {
      PutAllCons(processFd, process.View(), OpcodeBytes(Protocol.SetSampleRate), [EncodeInt(rate)]);
      st := WriteOpcode(processFd, process, Protocol.SetSampleRate);
      if !st.Done? {
        return;
      }
      PutAllCons(processFd, process.View(), EncodeInt(rate), []);
      st := WriteInt(processFd, process, rate);
    }

    /** `setParameter`: on the process FIFO, the opcode, the parameter number, then the value. */
    method SetParameter(p: Int32, value: Word) returns (st: Status)
      modifies process
      ensures Posted(st, process.View()) == PutAll(processFd, old(process.View()), [OpcodeBytes(Protocol.SetParameter), EncodeInt(p), WordBytes(value)])
    {
      PutAllCons(processFd, process.View(), OpcodeBytes(Protocol.SetParameter), [EncodeInt(p), WordBytes(value)]);
      st := WriteOpcode(processFd, process, Protocol.SetParameter);
      if !st.Done? {
        return;
      }
      PutAllCons(processFd, process.View(), EncodeInt(p), [WordBytes(value)]);
      st := WriteInt(processFd, process, p);
      if !st.Done? {
        return;
      }
      PutAllCons(processFd, process.View(), WordBytes(value), []);
      st := WriteFloat(processFd, process, value);
    }

    /** `setCurrentProgram`: on the process FIFO, the opcode, then the program number. */
    method SetCurrentProgram(n: Int32) returns (st: Status)
      modifies process
      ensures Posted(st, process.View()) == PutAll(processFd, old(process.View()), [OpcodeBytes(Protocol.SetCurrentProgram), EncodeInt(n)])
    {
      PutAllCons(processFd, process.View(), OpcodeBytes(Protocol.SetCurrentProgram), [EncodeInt(n)]);
      st := WriteOpcode(processFd, process, Protocol.SetCurrentProgram);
      if !st.Done? {
        return;
      }
      PutAllCons(processFd, process.View(), EncodeInt(n), []);
      st := WriteInt(processFd, process, n);
    }

    /** The second part of `cleanup`: each open descriptor is closed and set to -1. */
    method CloseDescriptors()
      modifies this`controlRequestFd, this`controlResponseFd, this`processFd, this`shmFd
      ensures controlRequestFd == (if old(controlRequestFd) >= 0 then -1 else old(controlRequestFd))
      ensures controlResponseFd == (if old(controlResponseFd) >= 0 then -1 else old(controlResponseFd))
      ensures processFd == (if old(processFd) >= 0 then -1 else old(processFd))
      ensures shmFd == (if old(shmFd) >= 0 then -1 else old(shmFd))
    {
      if controlRequestFd >= 0 {
        controlRequestFd := -1;
      }
      if controlResponseFd >= 0 {
        controlResponseFd := -1;
      }
      if processFd >= 0 {
        processFd := -1;
      }
      if shmFd >= 0 {
        shmFd := -1;
      }
    }

    /** The last part of `cleanup`: each name is unlinked, freed and forgotten. */
    method RemoveNames()
      modifies this`controlRequestFileName, this`controlResponseFileName, this`processFileName, this`shmFileName
      ensures controlRequestFileName.None? && controlResponseFileName.None? && processFileName.None? && shmFileName.None?
    {
      if controlRequestFileName.Some? {
        controlRequestFileName := None;
      }
      if controlResponseFileName.Some? {
        controlResponseFileName := None;
      }
      if processFileName.Some? {
        processFileName := None;
      }
      if shmFileName.Some? {
        shmFileName := None;
      }
    }
  }
}

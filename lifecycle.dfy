/*
 * The pure side of `RemotePluginClient`'s life cycle: the names of the
 * FIFOs and the shared-memory file, the outcome of the bounded `open`
 * retry loops of `syncStartup`, the resources `cleanup` gives back and
 * in which order, and the identifiers `getFileIdentifiers` hands to the
 * server.
 */
module Lifecycle {
  import opened Bytes
  import opened Protocol

  /** The six characters `mkstemp` puts in place of `XXXXXX`. */
  type Suffix = s: string | |s| == 6 witness "XXXXXX"

  /** The fixed part of the four `mkstemp` templates, in the order the constructor creates them. */
  const ControlRequestPrefix: string := "/tmp/rplugin_crq_"
  const ControlResponsePrefix: string := "/tmp/rplugin_crs_"
  const ProcessPrefix: string := "/tmp/rplugin_prc_"
  const ShmPrefix: string := "/tmp/rplugin_shm_"

  /** The messages the constructor and `syncStartup` throw. */
  const NoTempName: string := "Failed to obtain temporary filename"
  const NoFifo: string := "Failed to create FIFO"
  const NoShmFile: string := "Failed to open or create shared memory file"
  const TimedOut: string := "Plugin server timed out on startup"
  const NoControlFifo: string := "Failed to open control FIFO"
  const NoProcessFifo: string := "Failed to open process FIFO"
  const BadStart: string := "Remote plugin did not start correctly"

  /** How many times `syncStartup` tries to open the control-request and the process FIFO. */
  const ControlRequestAttempts: nat := 40
  const ProcessAttempts: nat := 6

  /** The result of one `open` call. */
  datatype OpenResult =
    | Opened(fd: nat)   // a descriptor
    | NoReader          // -1 with errno ENXIO: a non-blocking open for writing, and no reader yet
    | OpenFailed        // -1 with any other errno

  /** `open(name, ...)` on a name that may be null: a null name fails with EFAULT. */
  function Effective(name: Option<string>, outcomes: seq<OpenResult>): (r: seq<OpenResult>)
    ensures |r| == |outcomes|
    ensures name.Some? ==> r == outcomes
    ensures name.None? ==> forall k :: 0 <= k < |r| ==> r[k] == OpenFailed
  {
    if name.None? then seq(|outcomes|, _ => OpenFailed) else outcomes
  }

  /** How a retry loop ended: the descriptor (negative when not connected) and the number of `open` calls made. */
  datatype Retried = Retried(fd: int, tries: nat)

  /**
   * The loop `for (attempt = from; attempt < limit; ++attempt)` of
   * `syncStartup`: a descriptor ends it connected, an error other than
   * ENXIO ends it at once, and ENXIO sleeps and tries again until the
   * attempts run out.
   */
  function RetryFrom(outcomes: seq<OpenResult>, from: nat, limit: nat): (r: Retried)
    requires from < limit <= |outcomes|
    decreases limit - from
    ensures from < r.tries <= limit
    ensures forall j :: from <= j < r.tries - 1 ==> outcomes[j] == NoReader
    ensures r.fd >= 0 <==> outcomes[r.tries - 1].Opened?
    ensures r.fd >= 0 ==> r.fd == outcomes[r.tries - 1].fd
    ensures r.tries < limit ==> outcomes[r.tries - 1] != NoReader
  {
    match outcomes[from]
    case Opened(fd) => Retried(fd, from + 1)
    case OpenFailed => Retried(-1, from + 1)
    case NoReader => if from + 1 == limit then Retried(-1, limit) else RetryFrom(outcomes, from + 1, limit)
  }

  /**
   * The loop connects exactly when some attempt within the limit opens the
   * FIFO and every attempt before it found no reader.
   */
  lemma RetryConnects(outcomes: seq<OpenResult>, from: nat, limit: nat)
    requires from < limit <= |outcomes|
    ensures RetryFrom(outcomes, from, limit).fd >= 0 <==>
            exists k :: from <= k < limit && outcomes[k].Opened? && forall j :: from <= j < k ==> outcomes[j] == NoReader
  {
    var r := RetryFrom(outcomes, from, limit);
    if r.fd >= 0 {
      assert from <= r.tries - 1 < limit && outcomes[r.tries - 1].Opened?;
    }
  }

  /**
   * An attempt that finds no reader is retried and any other result ends
   * the loop: the first attempt within the limit that is not ENXIO is the
   * last one made, and the loop connects exactly when it opened the FIFO.
   */
  lemma {:induction false} RetryStopsAt(outcomes: seq<OpenResult>, from: nat, limit: nat, k: nat)
    requires from <= k < limit <= |outcomes|
    requires outcomes[k] != NoReader && forall j :: from <= j < k ==> outcomes[j] == NoReader
    decreases k - from
    ensures RetryFrom(outcomes, from, limit).tries == k + 1
    ensures RetryFrom(outcomes, from, limit).fd >= 0 <==> outcomes[k].Opened?
  {
    if k > from {
      RetryStopsAt(outcomes, from + 1, limit, k);
    }
  }

  /** What `cleanup` gives back. */
  datatype Resource =
    | Unmapped              // `munmap` of the shared-memory region
    | Closed(fd: int)       // `close` of a descriptor
    | Removed(name: string) // `unlink`, then `free`, of a file name

  /**
   * What the client holds: whether a region is mapped, the control-request,
   * control-response, process and shared-memory descriptors (negative when
   * closed), and the four file names.
   */
  datatype Handles = Handles(
    mapped: bool,
    requestFd: int, responseFd: int, processFd: int, shmFd: int,
    requestName: Option<string>, responseName: Option<string>, processName: Option<string>, shmName: Option<string>)

  /** `close` of a descriptor if it is open. */
  function Close(fd: int): seq<Resource>
  {
    if fd >= 0 then [Closed(fd)] else []
  }

  /** `unlink` and `free` of a name if there is one. */
  function Remove(name: Option<string>): seq<Resource>
  {
    if name.Some? then [Removed(name.value)] else []
  }

  /** Handles with nothing in them: what `cleanup` leaves. */
  predicate Released(h: Handles)
  {
    && !h.mapped
    && h.requestFd < 0 && h.responseFd < 0 && h.processFd < 0 && h.shmFd < 0
    && h.requestName.None? && h.responseName.None? && h.processName.None? && h.shmName.None?
  }

  /**
   * What `cleanup` releases from the handles it finds: the mapping first,
   * then every open descriptor, then every file name.
   */
  function Releases(h: Handles): (rs: seq<Resource>)
    ensures h.mapped ==> rs != [] && rs[0] == Unmapped
    ensures Released(h) ==> rs == []
  {
    Unmaps(h) + Closes(h) + Removes(h)
  }

  function Unmaps(h: Handles): seq<Resource>
  {
    if h.mapped then [Unmapped] else []
  }

  function Closes(h: Handles): seq<Resource>
  {
    Close(h.requestFd) + Close(h.responseFd) + Close(h.processFd) + Close(h.shmFd)
  }

  function Removes(h: Handles): seq<Resource>
  {
    Remove(h.requestName) + Remove(h.responseName) + Remove(h.processName) + Remove(h.shmName)
  }

  /** The descriptors held open. */
  function OpenFds(h: Handles): set<int>
  {
    (if h.requestFd >= 0 then {h.requestFd} else {}) + (if h.responseFd >= 0 then {h.responseFd} else {})
    + (if h.processFd >= 0 then {h.processFd} else {}) + (if h.shmFd >= 0 then {h.shmFd} else {})
  }

  /** The file names held. */
  function HeldNames(h: Handles): set<string>
  {
    (if h.requestName.Some? then {h.requestName.value} else {}) + (if h.responseName.Some? then {h.responseName.value} else {})
    + (if h.processName.Some? then {h.processName.value} else {}) + (if h.shmName.Some? then {h.shmName.value} else {})
  }

  /** `cleanup` releases everything the client holds, and nothing it does not hold. */
  lemma ReleasesWhatIsHeld(h: Handles, r: Resource)
    ensures r in Releases(h) <==>
              (r == Unmapped && h.mapped)
              || (r.Closed? && r.fd in OpenFds(h))
              || (r.Removed? && r.name in HeldNames(h))
  {
    assert r in Releases(h) <==> r in Unmaps(h) || r in Closes(h) || r in Removes(h);
    ClosesWhatIsOpen(h, r);
    RemovesWhatIsNamed(h, r);
  }

  lemma ClosesWhatIsOpen(h: Handles, r: Resource)
    ensures r in Closes(h) <==> r.Closed? && r.fd in OpenFds(h)
  {
  }

  lemma RemovesWhatIsNamed(h: Handles, r: Resource)
    ensures r in Removes(h) <==> r.Removed? && r.name in HeldNames(h)
  {
  }

  /** A single blocking `open`: the descriptor, or -1. */
  function OpenOnce(name: Option<string>, outcome: OpenResult): (fd: int)
    ensures fd >= 0 <==> name.Some? && outcome.Opened?
    ensures fd < 0 ==> fd == -1
  {
    if name.Some? && outcome.Opened? then outcome.fd else -1
  }

  /** The last six characters of a name: `name + strlen(name) - 6`. */
  function Tail6(name: string): (t: string)
    requires |name| >= 6
    ensures |t| == 6 && name == name[..|name| - 6] + t
  {
    name[|name| - 6..]
  }

  /**
   * `getFileIdentifiers`: the last six characters of the control-request,
   * control-response, process and shared-memory file names, in that order.
   */
  function Identifiers(crq: string, crs: string, prc: string, shm: string): (id: string)
    requires |crq| >= 6 && |crs| >= 6 && |prc| >= 6 && |shm| >= 6
    ensures |id| == 24
    ensures id[..6] == Tail6(crq) && id[6..12] == Tail6(crs) && id[12..18] == Tail6(prc) && id[18..] == Tail6(shm)
  {
    Tail6(crq) + Tail6(crs) + Tail6(prc) + Tail6(shm)
  }

  /** A name made from a template ends with the `mkstemp` suffix. */
  lemma TailOfTempName(k: nat, suffix: Suffix)
    requires k < 4
    ensures |TempName(k, suffix)| >= 6 && Tail6(TempName(k, suffix)) == suffix
  {
    var name := TempName(k, suffix);
    assert name[|name| - 6..] == suffix;
  }

  /** The identifiers of the four names made from the templates are the four `mkstemp` suffixes: the server can rebuild every name. */
  lemma IdentifiersAreSuffixes(a: Suffix, b: Suffix, c: Suffix, d: Suffix)
    ensures |TempName(0, a)| >= 6 && |TempName(1, b)| >= 6 && |TempName(2, c)| >= 6 && |TempName(3, d)| >= 6
    ensures Identifiers(TempName(0, a), TempName(1, b), TempName(2, c), TempName(3, d)) == a + b + c + d
  {
    TailOfTempName(0, a);
    TailOfTempName(1, b);
    TailOfTempName(2, c);
    TailOfTempName(3, d);
  }

  /**
   * The constructor body's steps in order: `mkstemp` and `mkfifo` for each
   * of the three FIFOs, then `mkstemp` and `open` for the shared-memory
   * file. The message of the first step that fails, or None.
   */
  function SetupFailure(temps: seq<Option<Suffix>>, fifos: seq<bool>, shmOpen: OpenResult): (m: Option<string>)
    requires |temps| == 4 && |fifos| == 3
    ensures m.None? <==> (forall k :: 0 <= k < 4 ==> temps[k].Some?) && (forall k :: 0 <= k < 3 ==> fifos[k]) && shmOpen.Opened?
    ensures m.Some? ==> m.value in {NoTempName, NoFifo, NoShmFile}
    ensures m == Some(NoShmFile) <==> (forall k :: 0 <= k < 4 ==> temps[k].Some?) && (forall k :: 0 <= k < 3 ==> fifos[k]) && !shmOpen.Opened?
  {
    if temps[0].None? then Some(NoTempName)
    else if !fifos[0] then Some(NoFifo)
    else if temps[1].None? then Some(NoTempName)
    else if !fifos[1] then Some(NoFifo)
    else if temps[2].None? then Some(NoTempName)
    else if !fifos[2] then Some(NoFifo)
    else if temps[3].None? then Some(NoTempName)
    else if !shmOpen.Opened? then Some(NoShmFile)
    else None
  }

  /** The status a constructor step ends with: normal completion, or the thrown message. */
  function Outcome(m: Option<string>): Status
  {
    if m.None? then Done else Threw(Message(m.value))
  }

  /** How many file names the constructor body has made when it stops: one per successful `mkstemp`. */
  function NamesMade(temps: seq<Option<Suffix>>, fifos: seq<bool>): (n: nat)
    requires |temps| == 4 && |fifos| == 3
    ensures n <= 4
    ensures forall k :: 0 <= k < n ==> temps[k].Some?
    ensures n < 4 ==> temps[n].None? || (n > 0 && !fifos[n - 1])
  {
    if temps[0].None? then 0
    else if !fifos[0] || temps[1].None? then 1
    else if !fifos[1] || temps[2].None? then 2
    else if !fifos[2] || temps[3].None? then 3
    else 4
  }

  /** The fixed part of the `k`-th template. */
  function Template(k: nat): (t: string)
    requires k < 4
    ensures |t| == 17
  {
    if k == 0 then ControlRequestPrefix
    else if k == 1 then ControlResponsePrefix
    else if k == 2 then ProcessPrefix
    else ShmPrefix
  }

  /** The name made from the `k`-th template. */
  function TempName(k: nat, suffix: Suffix): string
    requires k < 4
  {
    Template(k) + suffix
  }

  /** The `k`-th name, when the constructor body got as far as making it. */
  function NameIf(temps: seq<Option<Suffix>>, k: nat, made: nat): Option<string>
    requires k < 4 && |temps| == 4
    requires made <= 4 && forall j :: 0 <= j < made ==> temps[j].Some?
  {
    if k < made then Some(TempName(k, temps[k].value)) else None
  }

  /** What a constructor body that stops after making `made` names holds: those names, no descriptor, no mapping. */
  function Made(temps: seq<Option<Suffix>>, made: nat): Handles
    requires |temps| == 4 && made <= 4 && forall j :: 0 <= j < made ==> temps[j].Some?
  {
    Handles(false, -1, -1, -1, -1, NameIf(temps, 0, made), NameIf(temps, 1, made), NameIf(temps, 2, made), NameIf(temps, 3, made))
  }

  /** A constructor that fails removes exactly the names it made, in the order it made them. */
  lemma MadeReleasesNames(temps: seq<Option<Suffix>>, made: nat)
    requires |temps| == 4 && made <= 4 && forall j :: 0 <= j < made ==> temps[j].Some?
    ensures |Releases(Made(temps, made))| == made
    ensures forall k :: 0 <= k < made ==> Releases(Made(temps, made))[k] == Removed(TempName(k, temps[k].value))
  {
  }

  /** After a constructor body that completed, the identifiers handed to the server are the four `mkstemp` suffixes in order. */
  lemma MadeIdentifiers(temps: seq<Option<Suffix>>)
    requires |temps| == 4 && forall j :: 0 <= j < 4 ==> temps[j].Some?
    ensures var h := Made(temps, 4);
            && h.requestName.Some? && h.responseName.Some? && h.processName.Some? && h.shmName.Some?
            && |h.requestName.value| >= 6 && |h.responseName.value| >= 6 && |h.processName.value| >= 6 && |h.shmName.value| >= 6
            && Identifiers(h.requestName.value, h.responseName.value, h.processName.value, h.shmName.value)
               == temps[0].value + temps[1].value + temps[2].value + temps[3].value
  {
    IdentifiersAreSuffixes(temps[0].value, temps[1].value, temps[2].value, temps[3].value);
  }
}

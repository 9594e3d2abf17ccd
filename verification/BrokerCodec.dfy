/** The broker frames of lifecycle and process events: what an event is after one hop, and that a
    second hop loses nothing. Texts are byte strings; enumerations travel as one byte. */
module BrokerCodec {
  import opened Base
  import opened Wire

  const LIFECYCLE_TYPE: nat := 2
  const PROCESS_TYPE: nat := 3
  const COMM: nat := 64
  const ADDRESS: nat := 64
  const PATH: nat := 512
  const COMMAND_LINE: nat := 1024
  const DIRECTORY: nat := 512
  const USER: nat := 128
  const INTEGRITY: nat := 64

  datatype Endpoint = Endpoint(address: Bytes, port: Option<U16>)

  datatype Ids = Ids(pid: Option<I64>, tgid: Option<I64>) {
    predicate Both() { pid.Some? && tgid.Some? }

    /** A pid travels only with its thread group. */
    function Kept(): Ids { if Both() then this else Ids(None, None) }
  }

  datatype Namespace = Namespace(device: U64, inode: U64)

  datatype LifecycleEvent = LifecycleEvent(
    kind: Byte, at: U64, provenance: Byte, agent: Ids, kernel: Ids, pidNamespace: Option<Namespace>, uid: Option<U32>,
    startTicks: Option<U64>, comm: Option<Bytes>, netns: Option<U64>, family: Byte, protocol: Byte, endpointKind: Byte,
    local: Option<Endpoint>, remote: Option<Endpoint>, cookie: Option<U64>, platformId: Option<U64>, tcpState: Option<Byte>)

  // ---------- Lifecycle events ----------

  const LIFECYCLE: seq<nat> := [4, 1, 1, 1, 1, 1] + [1, 2, 8, 8, 8, 8] + [8, 8, 8, 4, 4, 8] + [8, 8, 8, 2, 2]
  const LIFECYCLE_NUMBERS: nat := 112
  const LIFECYCLE_SIZE: nat := LIFECYCLE_NUMBERS + COMM + ADDRESS + ADDRESS

  lemma LifecycleTotal()
    ensures Total(LIFECYCLE) == LIFECYCLE_NUMBERS
  {
    TotalSix(4, 1, 1, 1, 1, 1);
    TotalSix(1, 2, 8, 8, 8, 8);
    TotalSix(8, 8, 8, 4, 4, 8);
    TotalFive(8, 8, 8, 2, 2);
    TotalSplits([4, 1, 1, 1, 1, 1], [1, 2, 8, 8, 8, 8]);
    TotalSplits([4, 1, 1, 1, 1, 1] + [1, 2, 8, 8, 8, 8], [8, 8, 8, 4, 4, 8]);
    TotalSplits([4, 1, 1, 1, 1, 1] + [1, 2, 8, 8, 8, 8] + [8, 8, 8, 4, 4, 8], [8, 8, 8, 2, 2]);
  }

  predicate HasPort(e: Option<Endpoint>) { e.Some? && e.value.port.Some? }

  function PortOf(e: Option<Endpoint>): U16 { if HasPort(e) then e.value.port.value else 0 }

  function AddressOf(e: Option<Endpoint>): Bytes { if e.Some? then e.value.address else [] }

  function LifecycleBits(e: LifecycleEvent): seq<bool> {
    [e.agent.Both(), e.kernel.Both(), e.pidNamespace.Some?, e.uid.Some?, e.startTicks.Some?, e.netns.Some?, e.cookie.Some?,
     e.platformId.Some?, e.tcpState.Some?, e.local.Some?, HasPort(e.local), e.remote.Some?, HasPort(e.remote)]
  }

  function PidOf(ids: Ids): nat { if ids.Both() then Unsigned(ids.pid.value, TWO_63) else 0 }

  function TgidOf(ids: Ids): nat { if ids.Both() then Unsigned(ids.tgid.value, TWO_63) else 0 }

  function LifecycleNumbers(e: LifecycleEvent): (r: seq<nat>)
    ensures |r| == |LIFECYCLE|
  {
    var kinds: seq<nat> := [FlagsOf(LifecycleBits(e)), e.kind, e.provenance, e.family, e.protocol, e.endpointKind];
    var times: seq<nat> := [e.tcpState.GetOr(0), 0, e.at, PidOf(e.agent), TgidOf(e.agent), PidOf(e.kernel)];
    var space := e.pidNamespace.GetOr(Namespace(0, 0));
    var process: seq<nat> := [TgidOf(e.kernel), space.device, space.inode, e.uid.GetOr(0), 0, e.startTicks.GetOr(0)];
    var socket: seq<nat> := [e.netns.GetOr(0), e.cookie.GetOr(0), e.platformId.GetOr(0), PortOf(e.local), PortOf(e.remote)];
    kinds + times + process + socket
  }

  function LifecyclePayload(e: LifecycleEvent): (r: Bytes)
    ensures |r| == LIFECYCLE_SIZE
  {
    LifecycleTotal();
    Pack(LifecycleNumbers(e), LIFECYCLE) + TextField(e.comm.GetOr([]), COMM)
    + TextField(AddressOf(e.local), ADDRESS) + TextField(AddressOf(e.remote), ADDRESS)
  }

  function EncodeLifecycle(sequence: nat, e: LifecycleEvent): Bytes {
    MakeFrame(LIFECYCLE_TYPE, sequence, LifecyclePayload(e))
  }

  function IdsFrom(present: bool, pid: nat, tgid: nat): Ids
    requires pid <= U64_MAX && tgid <= U64_MAX
  {
    if present then Ids(Some(Signed(pid, TWO_63)), Some(Signed(tgid, TWO_63))) else Ids(None, None)
  }

  function EndpointFrom(present: bool, hasPort: bool, address: Bytes, port: U16): Option<Endpoint> {
    if present then Some(Endpoint(ReadText(address), if hasPort then Some(port) else None)) else None
  }

  function TextFrom(text: Bytes): Option<Bytes> { if text == [] then None else Some(text) }

  function When<T>(present: bool, value: T): Option<T> { if present then Some(value) else None }

  function LifecycleFrom(n: seq<nat>, comm: Bytes, local: Bytes, remote: Bytes): LifecycleEvent
    requires Fits(n, LIFECYCLE)
  {
    Ranges();
    LifecycleEvent(
      n[1], n[8], n[2], IdsFrom(Flag(n[0], 0), n[9], n[10]), IdsFrom(Flag(n[0], 1), n[11], n[12]),
      When(Flag(n[0], 2), Namespace(n[13], n[14])), When(Flag(n[0], 3), n[15]), When(Flag(n[0], 4), n[17]),
      TextFrom(ReadText(comm)), When(Flag(n[0], 5), n[18]), n[3], n[4], n[5],
      EndpointFrom(Flag(n[0], 9), Flag(n[0], 10), local, n[21]), EndpointFrom(Flag(n[0], 11), Flag(n[0], 12), remote, n[22]),
      When(Flag(n[0], 6), n[19]), When(Flag(n[0], 7), n[20]), When(Flag(n[0], 8), n[6]))
  }

  function DecodeLifecycle(bytes: Bytes): Option<LifecycleEvent> {
    var p := FramePayload(bytes, LIFECYCLE_TYPE, LIFECYCLE_SIZE);
    if p.None? then None
    else
      LifecycleTotal();
      PayloadSize(bytes, LIFECYCLE_TYPE, LIFECYCLE_SIZE);
      UnpackFits(p.value, LIFECYCLE);
      Some(LifecycleFrom(Unpack(p.value, LIFECYCLE), p.value[112..176], p.value[176..240], p.value[240..304]))
  }

  lemma PayloadSize(bytes: Bytes, kind: nat, size: nat)
    ensures FramePayload(bytes, kind, size).Some? ==> |FramePayload(bytes, kind, size).value| == size
  {
  }

  function CutEndpoint(e: Option<Endpoint>): Option<Endpoint> {
    if e.Some? then Some(e.value.(address := Cut(e.value.address, ADDRESS))) else None
  }

  /** What one hop makes of an event. */
  function CanonicalLifecycle(e: LifecycleEvent): LifecycleEvent {
    e.(agent := e.agent.Kept(), kernel := e.kernel.Kept(), comm := TextFrom(Cut(e.comm.GetOr([]), COMM)),
       local := CutEndpoint(e.local), remote := CutEndpoint(e.remote))
  }

  lemma FlagsFit(bits: seq<bool>)
    requires |bits| <= 16
    ensures FlagsOf(bits) < 0x1_0000_0000
  {
    FlagsBelow(bits);
    PowerGrows(|bits|, 16);
    assert Power2(4) == 16 && Power2(8) == 256 && Power2(12) == 4096 && Power2(16) == 65536;
  }

  lemma {:induction false} PowerGrows(a: nat, b: nat)
    requires a <= b
    ensures Power2(a) <= Power2(b)
  {
    if a < b {
      PowerGrows(a, b - 1);
    }
  }

  lemma LifecycleFits(e: LifecycleEvent)
    ensures Fits(LifecycleNumbers(e), LIFECYCLE)
  {
    hide FlagsOf, Range, LifecycleBits;
    Ranges();
    LifecycleFlagsFit(e);
  }

  lemma LifecycleFlagsFit(e: LifecycleEvent)
    ensures FlagsOf(LifecycleBits(e)) < 0x1_0000_0000
  {
    FlagsFit(LifecycleBits(e));
  }

  lemma LifecycleFlags(e: LifecycleEvent)
    ensures var flags, bits := LifecycleNumbers(e)[0], LifecycleBits(e);
            forall k | 0 <= k < 13 :: Flag(flags, k) == bits[k]
  {
    hide FlagsOf, Flag;
    forall k: nat | k < 13 ensures Flag(FlagsOf(LifecycleBits(e)), k) == LifecycleBits(e)[k] {
      FlagRoundTrip(LifecycleBits(e), k);
    }
  }

  lemma LifecycleFields(e: LifecycleEvent)
    requires Fits(LifecycleNumbers(e), LIFECYCLE)
    ensures LifecycleFrom(LifecycleNumbers(e), TextField(e.comm.GetOr([]), COMM), TextField(AddressOf(e.local), ADDRESS),
                          TextField(AddressOf(e.remote), ADDRESS)) == CanonicalLifecycle(e)
  {
    hide FlagsOf, Flag, Range, ReadText, TextField, Cut;
    LifecycleFlags(e);
    TextRoundTrip(e.comm.GetOr([]), COMM);
    TextRoundTrip(AddressOf(e.local), ADDRESS);
    TextRoundTrip(AddressOf(e.remote), ADDRESS);
  }

  /** Decoding an encoded lifecycle event gives its canonical form. */
  lemma LifecycleRoundTrip(sequence: nat, e: LifecycleEvent)
    requires sequence <= U64_MAX
    ensures DecodeLifecycle(EncodeLifecycle(sequence, e)) == Some(CanonicalLifecycle(e))
  {
    hide LifecycleFrom, LifecycleNumbers, TextField, CanonicalLifecycle, Pack, Unpack, MakeFrame, FramePayload;
    var p := LifecyclePayload(e);
    FrameRoundTrip(LIFECYCLE_TYPE, sequence, p);
    LifecycleTotal();
    LifecycleFits(e);
    var numbers, comm := Pack(LifecycleNumbers(e), LIFECYCLE), TextField(e.comm.GetOr([]), COMM);
    var local, remote := TextField(AddressOf(e.local), ADDRESS), TextField(AddressOf(e.remote), ADDRESS);
    PackRoundTrip(LifecycleNumbers(e), LIFECYCLE, comm + local + remote);
    assert p == numbers + (comm + local + remote);
    assert p[112..176] == comm && p[176..240] == local && p[240..304] == remote;
    LifecycleFields(e);
  }

  /** A second hop loses nothing. */
  lemma LifecycleCanonicalIsStable(e: LifecycleEvent)
    ensures CanonicalLifecycle(CanonicalLifecycle(e)) == CanonicalLifecycle(e)
  {
    hide Cut;
    CutTwice(e.comm.GetOr([]), COMM);
    CutTwice(AddressOf(e.local), ADDRESS);
    CutTwice(AddressOf(e.remote), ADDRESS);
    CutNothing(COMM);
  }

  lemma CutNothing(size: nat)
    requires size > 0
    ensures Cut([], size) == []
  {
  }

  // ---------- Process events ----------

  datatype ProcessEvent = ProcessEvent(
    kind: Byte, at: U64, ids: Ids, parent: Ids, uid: Option<U32>, gid: Option<U32>, startTime: Option<U64>,
    platformKey: Option<U64>, parentStartTime: Option<U64>, parentPlatformKey: Option<U64>, session: Option<U32>,
    elevated: Option<bool>, exitCode: Option<I32>, cgroup: Option<U64>,
    comm: Bytes, executable: Bytes, commandLine: Bytes, directory: Bytes, user: Bytes, integrity: Bytes)

  const PROCESS: seq<nat> := [4, 1, 1, 2, 8, 8] + [8, 8, 8, 4, 4, 8] + [8, 8, 8, 4, 4, 8]
  const PROCESS_NUMBERS: nat := 104
  const PROCESS_SIZE: nat := 2408

  lemma ProcessTotal()
    ensures Total(PROCESS) == PROCESS_NUMBERS
  {
    TotalSix(4, 1, 1, 2, 8, 8);
    TotalSix(8, 8, 8, 4, 4, 8);
    TotalSplits([4, 1, 1, 2, 8, 8], [8, 8, 8, 4, 4, 8]);
    TotalSplits([4, 1, 1, 2, 8, 8] + [8, 8, 8, 4, 4, 8], [8, 8, 8, 4, 4, 8]);
  }

  function ProcessBits(e: ProcessEvent): seq<bool> {
    [e.ids.Both(), e.parent.Both(), e.uid.Some?, e.gid.Some?, e.startTime.Some?, e.platformKey.Some?, e.parentStartTime.Some?,
     e.parentPlatformKey.Some?, e.session.Some?, e.elevated.Some?, e.exitCode.Some?, e.cgroup.Some?]
  }

  function ProcessNumbers(e: ProcessEvent): (r: seq<nat>)
    ensures |r| == |PROCESS|
  {
    var kinds: seq<nat> := [FlagsOf(ProcessBits(e)), e.kind, if e.elevated.GetOr(false) then 1 else 0, 0, e.at, PidOf(e.ids)];
    var ids: seq<nat> := [TgidOf(e.ids), PidOf(e.parent), TgidOf(e.parent), e.uid.GetOr(0), e.gid.GetOr(0), e.startTime.GetOr(0)];
    var rest: seq<nat> := [e.platformKey.GetOr(0), e.parentStartTime.GetOr(0), e.parentPlatformKey.GetOr(0),
                           e.session.GetOr(0), Unsigned(e.exitCode.GetOr(0), TWO_31), e.cgroup.GetOr(0)];
    kinds + ids + rest
  }

  function ProcessTexts(e: ProcessEvent): (r: Bytes)
    ensures |r| == PROCESS_SIZE - PROCESS_NUMBERS
  {
    TextField(e.comm, COMM) + TextField(e.executable, PATH) + TextField(e.commandLine, COMMAND_LINE)
    + TextField(e.directory, DIRECTORY) + TextField(e.user, USER) + TextField(e.integrity, INTEGRITY)
  }

  function ProcessPayload(e: ProcessEvent): (r: Bytes)
    ensures |r| == PROCESS_SIZE
  {
    ProcessTotal();
    Pack(ProcessNumbers(e), PROCESS) + ProcessTexts(e)
  }

  function EncodeProcess(sequence: nat, e: ProcessEvent): Bytes { MakeFrame(PROCESS_TYPE, sequence, ProcessPayload(e)) }

  /** The fields of a process event, with the texts read from their fields. */
  function ProcessFrom(n: seq<nat>, texts: seq<Bytes>): ProcessEvent
    requires Fits(n, PROCESS) && |texts| == 6
  {
    Ranges();
    ProcessEvent(
      n[1], n[4], IdsFrom(Flag(n[0], 0), n[5], n[6]), IdsFrom(Flag(n[0], 1), n[7], n[8]),
      When(Flag(n[0], 2), n[9]), When(Flag(n[0], 3), n[10]), When(Flag(n[0], 4), n[11]), When(Flag(n[0], 5), n[12]),
      When(Flag(n[0], 6), n[13]), When(Flag(n[0], 7), n[14]), When(Flag(n[0], 8), n[15]), When(Flag(n[0], 9), n[2] != 0),
      When(Flag(n[0], 10), Signed(n[16], TWO_31)), When(Flag(n[0], 11), n[17]),
      ReadText(texts[0]), ReadText(texts[1]), ReadText(texts[2]), ReadText(texts[3]), ReadText(texts[4]), ReadText(texts[5]))
  }

  function TextsOf(p: Bytes): seq<Bytes>
    requires |p| == PROCESS_SIZE
  {
    [p[104..168], p[168..680], p[680..1704], p[1704..2216], p[2216..2344], p[2344..2408]]
  }

  function DecodeProcess(bytes: Bytes): Option<ProcessEvent> {
    var p := FramePayload(bytes, PROCESS_TYPE, PROCESS_SIZE);
    if p.None? then None
    else
      ProcessTotal();
      PayloadSize(bytes, PROCESS_TYPE, PROCESS_SIZE);
      UnpackFits(p.value, PROCESS);
      Some(ProcessFrom(Unpack(p.value, PROCESS), TextsOf(p.value)))
  }

  function CanonicalProcess(e: ProcessEvent): ProcessEvent {
    e.(ids := e.ids.Kept(), parent := e.parent.Kept(), comm := Cut(e.comm, COMM), executable := Cut(e.executable, PATH),
       commandLine := Cut(e.commandLine, COMMAND_LINE), directory := Cut(e.directory, DIRECTORY),
       user := Cut(e.user, USER), integrity := Cut(e.integrity, INTEGRITY))
  }

  lemma ProcessFits(e: ProcessEvent)
    ensures Fits(ProcessNumbers(e), PROCESS)
  {
    hide FlagsOf, Range, ProcessBits;
    Ranges();
    ProcessFlagsFit(e);
  }

  lemma ProcessFlagsFit(e: ProcessEvent)
    ensures FlagsOf(ProcessBits(e)) < 0x1_0000_0000
  {
    FlagsFit(ProcessBits(e));
  }

  lemma ProcessFlags(e: ProcessEvent)
    ensures var flags, bits := ProcessNumbers(e)[0], ProcessBits(e);
            forall k | 0 <= k < 12 :: Flag(flags, k) == bits[k]
  {
    hide FlagsOf, Flag;
    forall k: nat | k < 12 ensures Flag(FlagsOf(ProcessBits(e)), k) == ProcessBits(e)[k] {
      FlagRoundTrip(ProcessBits(e), k);
    }
  }

  function FieldsOf(e: ProcessEvent): seq<Bytes> {
    [TextField(e.comm, COMM), TextField(e.executable, PATH), TextField(e.commandLine, COMMAND_LINE),
     TextField(e.directory, DIRECTORY), TextField(e.user, USER), TextField(e.integrity, INTEGRITY)]
  }

  lemma ProcessFields(e: ProcessEvent)
    requires Fits(ProcessNumbers(e), PROCESS)
    ensures ProcessFrom(ProcessNumbers(e), FieldsOf(e)) == CanonicalProcess(e)
  {
    hide FlagsOf, Flag, Range, ReadText, TextField, Cut;
    ProcessFlags(e);
    TextRoundTrip(e.comm, COMM);
    TextRoundTrip(e.executable, PATH);
    TextRoundTrip(e.commandLine, COMMAND_LINE);
    TextRoundTrip(e.directory, DIRECTORY);
    TextRoundTrip(e.user, USER);
    TextRoundTrip(e.integrity, INTEGRITY);
  }

  lemma ProcessTextsOf(e: ProcessEvent)
    ensures TextsOf(ProcessPayload(e)) == FieldsOf(e)
  {
    hide ProcessNumbers, Pack, TextField;
    var p, t := ProcessPayload(e), FieldsOf(e);
    var numbers := Pack(ProcessNumbers(e), PROCESS);
    ProcessTotal();
    assert p == numbers + (t[0] + t[1] + t[2] + t[3] + t[4] + t[5]);
    assert p[104..168] == t[0] && p[168..680] == t[1] && p[680..1704] == t[2];
    assert p[1704..2216] == t[3] && p[2216..2344] == t[4] && p[2344..2408] == t[5];
  }

  /** Decoding an encoded process event gives its canonical form. */
  lemma ProcessRoundTrip(sequence: nat, e: ProcessEvent)
    requires sequence <= U64_MAX
    ensures DecodeProcess(EncodeProcess(sequence, e)) == Some(CanonicalProcess(e))
  {
    hide ProcessFrom, ProcessNumbers, ProcessTexts, CanonicalProcess, Pack, Unpack, MakeFrame, FramePayload, TextsOf, FieldsOf;
    FrameRoundTrip(PROCESS_TYPE, sequence, ProcessPayload(e));
    ProcessTotal();
    ProcessFits(e);
    PackRoundTrip(ProcessNumbers(e), PROCESS, ProcessTexts(e));
    ProcessTextsOf(e);
    ProcessFields(e);
  }

  /** A second hop loses nothing. */
  lemma ProcessCanonicalIsStable(e: ProcessEvent)
    ensures CanonicalProcess(CanonicalProcess(e)) == CanonicalProcess(e)
  {
    hide Cut;
    CutTwice(e.comm, COMM);
    CutTwice(e.executable, PATH);
    CutTwice(e.commandLine, COMMAND_LINE);
    CutTwice(e.directory, DIRECTORY);
    CutTwice(e.user, USER);
    CutTwice(e.integrity, INTEGRITY);
  }
}

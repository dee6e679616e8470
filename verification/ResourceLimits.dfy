/**
 The resource limits and their validation, in 64-bit arithmetic: that the checks
 verify at all means none of them can overflow. The platform's largest int and
 its page size are parameters; the helper CPU share is a real number.
 */
module ResourceLimits {
  import opened JsonGrammar

  newtype int64 = x: int | -0x8000_0000_0000_0000 <= x <= 0x7FFF_FFFF_FFFF_FFFF

  const MAX_INT64: int64 := 0x7FFF_FFFF_FFFF_FFFF
  const SECOND: int64 := 1_000_000_000

  datatype ExecutionLimits = ExecutionLimits(
    maxRetries: int64, maxTimeoutSeconds: int64, defaultTimeoutSeconds: int64)

  datatype ArtifactLimits = ArtifactLimits(
    downloadBytes: int64, extractedBytes: int64, files: int64, stagingNodes: int64, metadataBytes: int64,
    fetchTimeoutSeconds: int64, dialTimeoutSeconds: int64, tlsTimeoutSeconds: int64,
    headerTimeoutSeconds: int64)

  datatype StagingLimits = StagingLimits(
    payloadBytes: int64, entries: int64, archiveBytes: int64)

  datatype MergeLimits = MergeLimits(
    archiveBytes: int64, entryVisits: int64, agentOutputs: int64)

  datatype TransferLimits = TransferLimits(
    global: int64, perAgent: int64, idleTimeoutSeconds: int64)

  /** A CPU share, as a floating-point number without its rounding. */
  datatype Cpus = NotANumber | Infinite | Finite(share: real)

  datatype ContainerLimits = ContainerLimits(
    pids: int64, tmpfsBytes: int64, helperPids: int64, helperCpus: Cpus, helperMemoryOverheadBytes: int64)

  datatype HttpLimits = HttpLimits(
    jsonBytes: int64, formBytes: int64, passwordFormBytes: int64, repositoryFormBytes: int64,
    readHeaderTimeoutSeconds: int64, readTimeoutSeconds: int64, writeTimeoutSeconds: int64,
    idleTimeoutSeconds: int64, streamWriteTimeoutSeconds: int64)

  datatype LogsLimits = LogsLimits(
    pageBytes: int64, lineBytes: int64, previewBatch: int64, pendingBytes: int64, exportBatch: int64,
    pageRows: int64)

  datatype TelemetryLimits = TelemetryLimits(
    concurrency: int64, intervalSeconds: int64, writeTimeoutSeconds: int64)

  datatype Limits = Limits(
    execution: ExecutionLimits, artifact: ArtifactLimits, staging: StagingLimits, merge: MergeLimits,
    transfer: TransferLimits, container: ContainerLimits, http: HttpLimits, logs: LogsLimits, telemetry: TelemetryLimits)

  /** How one number is checked: its own lower bound, and whether it becomes a duration. */
  datatype Bounded = Bounded(value: int64, minimum: int64, seconds: bool)

  function Count(value: int64): Bounded {
    Bounded(value, 1, false)
  }

  function Seconds(value: int64): Bounded {
    Bounded(value, 1, true)
  }

  function ExecutionNumbers(l: ExecutionLimits): seq<Bounded> {
    [Bounded(l.maxRetries, 0, false), Seconds(l.maxTimeoutSeconds), Seconds(l.defaultTimeoutSeconds)]
  }

  function ArtifactNumbers(l: ArtifactLimits): seq<Bounded> {
    [Count(l.downloadBytes), Count(l.extractedBytes), Count(l.files), Count(l.stagingNodes),
    Count(l.metadataBytes), Seconds(l.fetchTimeoutSeconds), Seconds(l.dialTimeoutSeconds),
    Seconds(l.tlsTimeoutSeconds), Seconds(l.headerTimeoutSeconds)]
  }

  function StagingNumbers(l: StagingLimits): seq<Bounded> {
    [Count(l.payloadBytes), Count(l.entries), Count(l.archiveBytes)]
  }

  function MergeNumbers(l: MergeLimits): seq<Bounded> {
    [Count(l.archiveBytes), Count(l.entryVisits), Count(l.agentOutputs)]
  }

  function TransferNumbers(l: TransferLimits): seq<Bounded> {
    [Count(l.global), Count(l.perAgent), Seconds(l.idleTimeoutSeconds)]
  }

  function ContainerNumbers(l: ContainerLimits): seq<Bounded> {
    [Count(l.pids), Count(l.tmpfsBytes), Count(l.helperPids), Count(l.helperMemoryOverheadBytes)]
  }

  function HttpNumbers(l: HttpLimits): seq<Bounded> {
    [Count(l.jsonBytes), Count(l.formBytes), Count(l.passwordFormBytes), Count(l.repositoryFormBytes),
    Seconds(l.readHeaderTimeoutSeconds), Seconds(l.readTimeoutSeconds), Seconds(l.writeTimeoutSeconds),
    Seconds(l.idleTimeoutSeconds), Seconds(l.streamWriteTimeoutSeconds)]
  }

  function LogsNumbers(l: LogsLimits): seq<Bounded> {
    [Count(l.pageBytes), Count(l.lineBytes), Count(l.previewBatch), Count(l.pendingBytes),
    Count(l.exportBatch), Count(l.pageRows)]
  }

  function TelemetryNumbers(l: TelemetryLimits): seq<Bounded> {
    [Count(l.concurrency), Seconds(l.intervalSeconds), Seconds(l.writeTimeoutSeconds)]
  }

  /** Every number in the limits, in the order of the records. */
  function Numbers(l: Limits): seq<Bounded> {
    ExecutionNumbers(l.execution)
    + ArtifactNumbers(l.artifact)
    + StagingNumbers(l.staging)
    + MergeNumbers(l.merge)
    + TransferNumbers(l.transfer)
    + ContainerNumbers(l.container)
    + HttpNumbers(l.http)
    + LogsNumbers(l.logs)
    + TelemetryNumbers(l.telemetry)
  }

  // ----- the checks, as they compute -----

  predicate ValidateNumber(n: Bounded, maxInt: int64) {
    n.minimum <= n.value < maxInt && (n.seconds ==> n.value <= MAX_INT64 / SECOND)
  }

  predicate ValidateNumbers(l: Limits, maxInt: int64) {
    forall k :: 0 <= k < |Numbers(l)| ==> ValidateNumber(Numbers(l)[k], maxInt)
  }

  predicate ValidateRelationships(l: Limits) {
    && l.execution.defaultTimeoutSeconds <= l.execution.maxTimeoutSeconds
    && l.transfer.perAgent <= l.transfer.global
    && l.artifact.stagingNodes >= l.artifact.files
    && l.staging.archiveBytes >= 1024 && l.staging.payloadBytes <= l.staging.archiveBytes - 1024
    && l.http.passwordFormBytes <= l.http.formBytes
    && l.http.repositoryFormBytes <= l.http.formBytes
    && l.http.readHeaderTimeoutSeconds <= l.http.readTimeoutSeconds
    && l.logs.lineBytes >= 128 && l.logs.pageBytes >= 2048 && l.logs.lineBytes <= (l.logs.pageBytes - 2048) / 18
  }

  datatype Stage = Stage(bytes: int64, entries: int64)

  function Stages(l: Limits): seq<Stage> {
    [Stage(l.staging.payloadBytes, l.staging.entries), Stage(l.artifact.extractedBytes, l.artifact.stagingNodes)]
  }

  predicate InRange(n: int64, maxInt: int64) {
    1 <= n < maxInt
  }

  lemma NumbersInRange(l: Limits, maxInt: int64)
    requires ValidateNumbers(l, maxInt)
    ensures InRange(l.artifact.downloadBytes, maxInt) && InRange(l.container.tmpfsBytes, maxInt)
    ensures InRange(l.staging.payloadBytes, maxInt) && InRange(l.staging.entries, maxInt)
    ensures InRange(l.artifact.extractedBytes, maxInt) && InRange(l.artifact.stagingNodes, maxInt)
    ensures InRange(l.container.helperMemoryOverheadBytes, maxInt)
  {
    NumbersAreExact(l, maxInt);
    NumbersAreFields(l, maxInt as int);
  }

  predicate ValidateCpus(c: Cpus, maxInt: int64) {
    c.Finite? && c.share >= 0.000000001 && c.share < maxInt as real / 1000000000.0
  }

  /** The capacity checks read the limits only after every number is in range. */
  method ValidateCapacity(l: Limits, maxInt: int64, page: int64) returns (ok: bool)
    requires ValidateNumbers(l, maxInt) && page > 0
    ensures ok <==>
      && CpusFit(l.container.helperCpus, maxInt as int)
      && l.artifact.downloadBytes as int + l.container.tmpfsBytes as int <= maxInt as int
      && forall k :: 0 <= k < |Stages(l)| ==> StageFits(l, Stages(l)[k], maxInt, page)
  {
    NumbersInRange(l, maxInt);
    CpusAreExact(l.container.helperCpus, maxInt);
    if !ValidateCpus(l.container.helperCpus, maxInt) {
      return false;
    }
    if l.artifact.downloadBytes > maxInt - l.container.tmpfsBytes {
      return false;
    }
    var stages := Stages(l);
    for k := 0 to |stages|
      invariant forall j :: 0 <= j < k ==> StageFits(l, stages[j], maxInt, page)
    {
      var stage := stages[k];
      assert InRange(stage.bytes, maxInt) && InRange(stage.entries, maxInt);
      DivisionIsExact(stage.entries as int, (maxInt - stage.bytes) as int, page as int);
      if stage.entries > (maxInt - stage.bytes) / page || stage.entries > (maxInt - 2) / 2 {
        assert !StageFits(l, stages[k], maxInt, page);
        return false;
      }
      var capacity := stage.bytes + stage.entries * page;
      if capacity > maxInt - l.container.helperMemoryOverheadBytes {
        assert !StageFits(l, stages[k], maxInt, page);
        return false;
      }
    }
    ok := true;
  }

  method Validate(l: Limits, maxInt: int64, page: int64) returns (ok: bool)
    requires page > 0
    ensures ok <==> Acceptable(l, maxInt as int, page as int)
  {
    hide Numbers, NumberFits, ValidateNumber, FieldsInRange;
    NumbersAreExact(l, maxInt);
    NumbersAreFields(l, maxInt as int);
    RelationshipsAreExact(l);
    if ValidateNumbers(l, maxInt) {
      NumbersInRange(l, maxInt);
    }
    if !ValidateNumbers(l, maxInt) || !ValidateRelationships(l) {
      return false;
    }
    ok := ValidateCapacity(l, maxInt, page);
    assert Stages(l)[0] == Stage(l.staging.payloadBytes, l.staging.entries);
    assert Stages(l)[1] == Stage(l.artifact.extractedBytes, l.artifact.stagingNodes);
  }

  // ----- what they mean, in unbounded arithmetic -----

  predicate StageFits(l: Limits, stage: Stage, maxInt: int64, page: int64) {
    Holds(stage.bytes as int, stage.entries as int, l.container.helperMemoryOverheadBytes as int, maxInt as int, page as int)
  }

  /** A file system of this many bytes and entries, and the memory beside it, can be counted. */
  predicate Holds(bytes: int, entries: int, overhead: int, maxInt: int, page: int) {
    bytes + entries * page + overhead <= maxInt && 2 * entries + 2 <= maxInt
  }

  /** The share is between one and the largest int billionths of a CPU, the unit containers are given. */
  predicate CpusFit(c: Cpus, maxInt: int) {
    c.Finite? && 1.0 <= c.share * 1000000000.0 < maxInt as real
  }

  predicate NumberFits(n: Bounded, maxInt: int) {
    n.minimum <= n.value && n.value as int + 1 <= maxInt
    && (n.seconds ==> n.value as int * SECOND as int <= MAX_INT64 as int)
  }

  /** At least 1, and one more still fits an int. */
  predicate Small(n: int64, maxInt: int) {
    1 <= n && n as int + 1 <= maxInt
  }

  /** And as nanoseconds it fits 64 bits. */
  predicate Timed(n: int64, maxInt: int) {
    Small(n, maxInt) && n as int * 1000000000 <= 9223372036854775807
  }

  // the range of each field

  predicate ExecutionInRange(l: ExecutionLimits, maxInt: int) {
    0 <= l.maxRetries && l.maxRetries as int < maxInt && Timed(l.maxTimeoutSeconds, maxInt) &&
    Timed(l.defaultTimeoutSeconds, maxInt)
  }

  predicate ArtifactInRange(l: ArtifactLimits, maxInt: int) {
    Small(l.downloadBytes, maxInt) && Small(l.extractedBytes, maxInt) && Small(l.files, maxInt) &&
    Small(l.stagingNodes, maxInt) && Small(l.metadataBytes, maxInt) && Timed(l.fetchTimeoutSeconds, maxInt) &&
    Timed(l.dialTimeoutSeconds, maxInt) && Timed(l.tlsTimeoutSeconds, maxInt) &&
    Timed(l.headerTimeoutSeconds, maxInt)
  }

  predicate StagingInRange(l: StagingLimits, maxInt: int) {
    Small(l.payloadBytes, maxInt) && Small(l.entries, maxInt) && Small(l.archiveBytes, maxInt)
  }

  predicate MergeInRange(l: MergeLimits, maxInt: int) {
    Small(l.archiveBytes, maxInt) && Small(l.entryVisits, maxInt) && Small(l.agentOutputs, maxInt)
  }

  predicate TransferInRange(l: TransferLimits, maxInt: int) {
    Small(l.global, maxInt) && Small(l.perAgent, maxInt) && Timed(l.idleTimeoutSeconds, maxInt)
  }

  predicate ContainerInRange(l: ContainerLimits, maxInt: int) {
    Small(l.pids, maxInt) && Small(l.tmpfsBytes, maxInt) && Small(l.helperPids, maxInt) &&
    Small(l.helperMemoryOverheadBytes, maxInt)
  }

  predicate HttpInRange(l: HttpLimits, maxInt: int) {
    Small(l.jsonBytes, maxInt) && Small(l.formBytes, maxInt) && Small(l.passwordFormBytes, maxInt) &&
    Small(l.repositoryFormBytes, maxInt) && Timed(l.readHeaderTimeoutSeconds, maxInt) &&
    Timed(l.readTimeoutSeconds, maxInt) && Timed(l.writeTimeoutSeconds, maxInt) &&
    Timed(l.idleTimeoutSeconds, maxInt) && Timed(l.streamWriteTimeoutSeconds, maxInt)
  }

  predicate LogsInRange(l: LogsLimits, maxInt: int) {
    Small(l.pageBytes, maxInt) && Small(l.lineBytes, maxInt) && Small(l.previewBatch, maxInt) &&
    Small(l.pendingBytes, maxInt) && Small(l.exportBatch, maxInt) && Small(l.pageRows, maxInt)
  }

  predicate TelemetryInRange(l: TelemetryLimits, maxInt: int) {
    Small(l.concurrency, maxInt) && Timed(l.intervalSeconds, maxInt) && Timed(l.writeTimeoutSeconds, maxInt)
  }

  predicate FieldsInRange(l: Limits, maxInt: int) {
    && ExecutionInRange(l.execution, maxInt)
    && ArtifactInRange(l.artifact, maxInt)
    && StagingInRange(l.staging, maxInt)
    && MergeInRange(l.merge, maxInt)
    && TransferInRange(l.transfer, maxInt)
    && ContainerInRange(l.container, maxInt)
    && HttpInRange(l.http, maxInt)
    && LogsInRange(l.logs, maxInt)
    && TelemetryInRange(l.telemetry, maxInt)
  }

  /** The limits that are safe to compute with. */
  ghost predicate Acceptable(l: Limits, maxInt: int, page: int) {
    && FieldsInRange(l, maxInt)
    && l.execution.defaultTimeoutSeconds <= l.execution.maxTimeoutSeconds
    && l.transfer.perAgent <= l.transfer.global
    && l.artifact.files <= l.artifact.stagingNodes
    && l.staging.payloadBytes as int + 1024 <= l.staging.archiveBytes as int
    && l.http.passwordFormBytes <= l.http.formBytes && l.http.repositoryFormBytes <= l.http.formBytes
    && l.http.readHeaderTimeoutSeconds <= l.http.readTimeoutSeconds
    && l.logs.lineBytes >= 128 && 3 * 6 * l.logs.lineBytes as int + 2048 <= l.logs.pageBytes as int
    && CpusFit(l.container.helperCpus, maxInt)
    && l.artifact.downloadBytes as int + l.container.tmpfsBytes as int <= maxInt
    && Holds(l.staging.payloadBytes as int, l.staging.entries as int, l.container.helperMemoryOverheadBytes as int, maxInt, page)
    && Holds(l.artifact.extractedBytes as int, l.artifact.stagingNodes as int, l.container.helperMemoryOverheadBytes as int,
             maxInt, page)
  }

  /** Comparing with a quotient is comparing the product, and never forms it. */
  lemma DivisionIsExact(n: int, room: int, unit: int)
    requires room >= 0 && unit > 0
    ensures n <= room / unit <==> n * unit <= room
  {
    assert room == (room / unit) * unit + room % unit;
    if n <= room / unit {
      Multiplies(n, room / unit, unit);
    } else {
      Multiplies(room / unit + 1, n, unit);
    }
  }

  lemma Multiplies(a: int, b: int, c: int)
    requires a <= b && c > 0
    ensures a * c <= b * c
  {
  }

  lemma CpusAreExact(c: Cpus, maxInt: int64)
    ensures ValidateCpus(c, maxInt) <==> CpusFit(c, maxInt as int)
  {
  }

  lemma NumbersAreExact(l: Limits, maxInt: int64)
    ensures ValidateNumbers(l, maxInt) <==>
      AllFit(Numbers(l), maxInt as int)
  {
    forall n: Bounded ensures ValidateNumber(n, maxInt) == NumberFits(n, maxInt as int) {
      DivisionIsExact(n.value as int, MAX_INT64 as int, SECOND as int);
    }
  }

  predicate AllFit(ns: seq<Bounded>, maxInt: int) {
    forall k :: 0 <= k < |ns| ==> NumberFits(ns[k], maxInt)
  }

  lemma AllFitBoth(a: seq<Bounded>, b: seq<Bounded>, maxInt: int)
    ensures AllFit(a + b, maxInt) <==> AllFit(a, maxInt) && AllFit(b, maxInt)
  {
    hide NumberFits;
    assert forall k :: 0 <= k < |a| ==> (a + b)[k] == a[k];
    assert forall k :: 0 <= k < |b| ==> (a + b)[|a| + k] == b[k];
  }

  lemma ExecutionExactly(l: ExecutionLimits, maxInt: int)
    ensures AllFit(ExecutionNumbers(l), maxInt) <==> ExecutionInRange(l, maxInt)
  {
    var ns := ExecutionNumbers(l);
    if AllFit(ns, maxInt) {
      assert NumberFits(ns[0], maxInt);
      assert NumberFits(ns[1], maxInt);
      assert NumberFits(ns[2], maxInt);
    }
  }

  lemma ArtifactExactly(l: ArtifactLimits, maxInt: int)
    ensures AllFit(ArtifactNumbers(l), maxInt) <==> ArtifactInRange(l, maxInt)
  {
    var ns := ArtifactNumbers(l);
    if AllFit(ns, maxInt) {
      assert NumberFits(ns[0], maxInt);
      assert NumberFits(ns[1], maxInt);
      assert NumberFits(ns[2], maxInt);
      assert NumberFits(ns[3], maxInt);
      assert NumberFits(ns[4], maxInt);
      assert NumberFits(ns[5], maxInt);
      assert NumberFits(ns[6], maxInt);
      assert NumberFits(ns[7], maxInt);
      assert NumberFits(ns[8], maxInt);
    }
  }

  lemma StagingExactly(l: StagingLimits, maxInt: int)
    ensures AllFit(StagingNumbers(l), maxInt) <==> StagingInRange(l, maxInt)
  {
    var ns := StagingNumbers(l);
    if AllFit(ns, maxInt) {
      assert NumberFits(ns[0], maxInt);
      assert NumberFits(ns[1], maxInt);
      assert NumberFits(ns[2], maxInt);
    }
  }

  lemma MergeExactly(l: MergeLimits, maxInt: int)
    ensures AllFit(MergeNumbers(l), maxInt) <==> MergeInRange(l, maxInt)
  {
    var ns := MergeNumbers(l);
    if AllFit(ns, maxInt) {
      assert NumberFits(ns[0], maxInt);
      assert NumberFits(ns[1], maxInt);
      assert NumberFits(ns[2], maxInt);
    }
  }

  lemma TransferExactly(l: TransferLimits, maxInt: int)
    ensures AllFit(TransferNumbers(l), maxInt) <==> TransferInRange(l, maxInt)
  {
    var ns := TransferNumbers(l);
    if AllFit(ns, maxInt) {
      assert NumberFits(ns[0], maxInt);
      assert NumberFits(ns[1], maxInt);
      assert NumberFits(ns[2], maxInt);
    }
  }

  lemma ContainerExactly(l: ContainerLimits, maxInt: int)
    ensures AllFit(ContainerNumbers(l), maxInt) <==> ContainerInRange(l, maxInt)
  {
    var ns := ContainerNumbers(l);
    if AllFit(ns, maxInt) {
      assert NumberFits(ns[0], maxInt);
      assert NumberFits(ns[1], maxInt);
      assert NumberFits(ns[2], maxInt);
      assert NumberFits(ns[3], maxInt);
    }
  }

  lemma HttpExactly(l: HttpLimits, maxInt: int)
    ensures AllFit(HttpNumbers(l), maxInt) <==> HttpInRange(l, maxInt)
  {
    var ns := HttpNumbers(l);
    if AllFit(ns, maxInt) {
      assert NumberFits(ns[0], maxInt);
      assert NumberFits(ns[1], maxInt);
      assert NumberFits(ns[2], maxInt);
      assert NumberFits(ns[3], maxInt);
      assert NumberFits(ns[4], maxInt);
      assert NumberFits(ns[5], maxInt);
      assert NumberFits(ns[6], maxInt);
      assert NumberFits(ns[7], maxInt);
      assert NumberFits(ns[8], maxInt);
    }
  }

  lemma LogsExactly(l: LogsLimits, maxInt: int)
    ensures AllFit(LogsNumbers(l), maxInt) <==> LogsInRange(l, maxInt)
  {
    var ns := LogsNumbers(l);
    if AllFit(ns, maxInt) {
      assert NumberFits(ns[0], maxInt);
      assert NumberFits(ns[1], maxInt);
      assert NumberFits(ns[2], maxInt);
      assert NumberFits(ns[3], maxInt);
      assert NumberFits(ns[4], maxInt);
      assert NumberFits(ns[5], maxInt);
    }
  }

  lemma TelemetryExactly(l: TelemetryLimits, maxInt: int)
    ensures AllFit(TelemetryNumbers(l), maxInt) <==> TelemetryInRange(l, maxInt)
  {
    var ns := TelemetryNumbers(l);
    if AllFit(ns, maxInt) {
      assert NumberFits(ns[0], maxInt);
      assert NumberFits(ns[1], maxInt);
      assert NumberFits(ns[2], maxInt);
    }
  }

  /** The list of numbers checked is the list of fields. */
  lemma NumbersAreFields(l: Limits, maxInt: int)
    ensures AllFit(Numbers(l), maxInt) <==> FieldsInRange(l, maxInt)
  {
    hide AllFit, ExecutionNumbers, ArtifactNumbers, StagingNumbers, MergeNumbers, TransferNumbers, ContainerNumbers, HttpNumbers, LogsNumbers, TelemetryNumbers;
    var ns := ExecutionNumbers(l.execution);
    AllFitBoth(ns, ArtifactNumbers(l.artifact), maxInt);
    ns := ns + ArtifactNumbers(l.artifact);
    AllFitBoth(ns, StagingNumbers(l.staging), maxInt);
    ns := ns + StagingNumbers(l.staging);
    AllFitBoth(ns, MergeNumbers(l.merge), maxInt);
    ns := ns + MergeNumbers(l.merge);
    AllFitBoth(ns, TransferNumbers(l.transfer), maxInt);
    ns := ns + TransferNumbers(l.transfer);
    AllFitBoth(ns, ContainerNumbers(l.container), maxInt);
    ns := ns + ContainerNumbers(l.container);
    AllFitBoth(ns, HttpNumbers(l.http), maxInt);
    ns := ns + HttpNumbers(l.http);
    AllFitBoth(ns, LogsNumbers(l.logs), maxInt);
    ns := ns + LogsNumbers(l.logs);
    AllFitBoth(ns, TelemetryNumbers(l.telemetry), maxInt);
    ns := ns + TelemetryNumbers(l.telemetry);
    ExecutionExactly(l.execution, maxInt);
    ArtifactExactly(l.artifact, maxInt);
    StagingExactly(l.staging, maxInt);
    MergeExactly(l.merge, maxInt);
    TransferExactly(l.transfer, maxInt);
    ContainerExactly(l.container, maxInt);
    HttpExactly(l.http, maxInt);
    LogsExactly(l.logs, maxInt);
    TelemetryExactly(l.telemetry, maxInt);
  }

  lemma RelationshipsAreExact(l: Limits)
    ensures ValidateRelationships(l) <==>
      && l.execution.defaultTimeoutSeconds <= l.execution.maxTimeoutSeconds
      && l.transfer.perAgent <= l.transfer.global
      && l.artifact.files <= l.artifact.stagingNodes
      && l.staging.archiveBytes >= 1024 && l.staging.payloadBytes as int + 1024 <= l.staging.archiveBytes as int
      && l.http.passwordFormBytes <= l.http.formBytes && l.http.repositoryFormBytes <= l.http.formBytes
      && l.http.readHeaderTimeoutSeconds <= l.http.readTimeoutSeconds
      && l.logs.lineBytes >= 128 && 3 * 6 * l.logs.lineBytes as int + 2048 <= l.logs.pageBytes as int
  {
    if l.logs.pageBytes >= 2048 {
      DivisionIsExact(l.logs.lineBytes as int, (l.logs.pageBytes - 2048) as int, 18);
    }
  }

  // ----- three encoded fields on a page -----

  /** A unit of a JSON string (RFC 8259, section 7) takes at most six bytes. */
  lemma {:induction false} EncodedSize(atoms: seq<Atom>)
    requires AtomsWF(atoms)
    ensures |RenderAtoms(atoms)| <= 6 * |atoms|
  {
    if atoms != [] {
      EncodedSize(atoms[1..]);
    }
  }

  /**
   Under accepted limits three text fields fit a page with 2048 bytes to spare,
   whichever units an encoder chooses, as long as it writes at most one per byte of a line.
   */
  lemma ThreeFieldsFitAPage(l: Limits, maxInt: int, page: int, a: seq<Atom>, b: seq<Atom>, c: seq<Atom>)
    requires Acceptable(l, maxInt, page)
    requires AtomsWF(a) && AtomsWF(b) && AtomsWF(c)
    requires |a| <= l.logs.lineBytes as int && |b| <= l.logs.lineBytes as int && |c| <= l.logs.lineBytes as int
    ensures |RenderAtoms(a)| + |RenderAtoms(b)| + |RenderAtoms(c)| + 2048 <= l.logs.pageBytes as int
  {
    hide RenderAtoms, FieldsInRange, AtomsWF;
    EncodedSize(a);
    EncodedSize(b);
    EncodedSize(c);
  }

  /** And no smaller page would do: lines of control characters, six bytes each, fill all but the spare bytes. */
  lemma SixBytesAreNeeded(l: Limits)
    requires l.logs.lineBytes >= 0 && 3 * 6 * l.logs.lineBytes as int + 2048 > l.logs.pageBytes as int
    ensures
      var line := seq(l.logs.lineBytes as nat, k => Unicode([48, 48, 48, 49]));
      AtomsWF(line) && 3 * |RenderAtoms(line)| + 2048 > l.logs.pageBytes as int
  {
    Repeated(l.logs.lineBytes as nat);
  }

  lemma {:induction false} Repeated(n: nat)
    ensures |RenderAtoms(seq(n, k => Unicode([48, 48, 48, 49])))| == 6 * n
  {
    if n > 0 {
      var line := seq(n, k => Unicode([48, 48, 48, 49]));
      assert line[1..] == seq(n - 1, k => Unicode([48, 48, 48, 49]));
      Repeated(n - 1);
    }
  }

  // ----- the defaults -----

  const MIB: int64 := 1_048_576

  function Defaults(): Limits {
    Limits(
      ExecutionLimits(10, 86400, 300),
      ArtifactLimits(300 * MIB, 512 * MIB, 10000, 19999, 16 * MIB, 300, 30, 10, 30),
      StagingLimits(512 * MIB, 20000, 544 * MIB),
      MergeLimits(2048 * MIB, 200000, 64),
      TransferLimits(4, 1, 300),
      ContainerLimits(128, 64 * MIB, 32, Finite(1.0), 128 * MIB),
      HttpLimits(4 * MIB, 16 * MIB, 65536, 65536, 5, 30, 60, 60, 60),
      LogsLimits(MIB, 16384, 64, MIB, 256, 500),
      TelemetryLimits(8, 60, 5))
  }

  /** The defaults are accepted where int has 64 bits, and refused where it has 32: the merge limit does not fit. */
  lemma DefaultsNeedSixtyFourBits(page: int)
    requires 0 < page <= 65536
    ensures Acceptable(Defaults(), 0x7FFF_FFFF_FFFF_FFFF, page)
    ensures !Acceptable(Defaults(), 0x7FFF_FFFF, page)
  {
    Multiplies(page, 65536, 20000);
    Multiplies(page, 65536, 19999);
  }
}

/** The IOCTL surface: control codes, the buffer validator and the dispatcher. */
module Requests {
  import opened Base
  import opened OrderedTable
  import opened Policies
  import opened Decisions
  import opened Counters
  import opened DriverModel

  datatype Op =
    | GetDriverState | SetAppPolicy | SyncPolicies | SetRoute | ClearRoute | SyncRoutes | SetKillSwitchMode
    | GetTelemetry | ExportState | ImportState | ReconcileFilters | DnsSetConfig | GetPerfStats | GetDnsStats
    | SetGuardianMode

  const FILE_READ_DATA: nat := 1
  const FILE_WRITE_DATA: nat := 2

  /** CTL_CODE for device type 0x8010 and METHOD_BUFFERED. */
  function CtlCode(functionNumber: nat, access: nat): nat {
    0x8010_0000 + access * 0x4000 + functionNumber * 4
  }

  function Code(op: Op): nat {
    match op
    case GetDriverState => CtlCode(0x800, FILE_READ_DATA)
    case SetAppPolicy => CtlCode(0x801, FILE_WRITE_DATA)
    case SyncPolicies => CtlCode(0x802, FILE_WRITE_DATA)
    case SetRoute => CtlCode(0x803, FILE_WRITE_DATA)
    case ClearRoute => CtlCode(0x804, FILE_WRITE_DATA)
    case SyncRoutes => CtlCode(0x805, FILE_WRITE_DATA)
    case SetKillSwitchMode => CtlCode(0x806, FILE_WRITE_DATA)
    case GetTelemetry => CtlCode(0x807, FILE_READ_DATA)
    case ExportState => CtlCode(0x808, FILE_READ_DATA)
    case ImportState => CtlCode(0x809, FILE_WRITE_DATA)
    case ReconcileFilters => CtlCode(0x80A, FILE_WRITE_DATA)
    case DnsSetConfig => CtlCode(0x80B, FILE_WRITE_DATA)
    case GetPerfStats => CtlCode(0x80C, FILE_READ_DATA)
    case GetDnsStats => CtlCode(0x80D, FILE_READ_DATA)
    case SetGuardianMode => CtlCode(0x80E, FILE_WRITE_DATA)
  }

  const ALL_OPS: seq<Op> :=
    [GetDriverState, SetAppPolicy, SyncPolicies, SetRoute, ClearRoute, SyncRoutes, SetKillSwitchMode, GetTelemetry,
     ExportState, ImportState, ReconcileFilters, DnsSetConfig, GetPerfStats, GetDnsStats, SetGuardianMode]

  /** The switch on the control code: the first operation whose code it is. */
  function DecodeFrom(code: nat, i: nat): Option<Op>
    requires i <= |ALL_OPS|
    decreases |ALL_OPS| - i
  {
    if i == |ALL_OPS| then None
    else if Code(ALL_OPS[i]) == code then Some(ALL_OPS[i])
    else DecodeFrom(code, i + 1)
  }

  function Decode(code: nat): Option<Op> {
    DecodeFrom(code, 0)
  }

  // Sizes of the packed wire structures, field by field.
  const DRIVER_STATE_SIZE: nat := 12 * 4 + 12
  const APP_POLICY_SIZE: nat := 4 + 16 + 3 * 4 + 2 * 520 + 32 + 4 + 68 + 2 * 128 + 2 * 8
  const SYNC_HEADER_SIZE: nat := 2 * 4
  const ROUTE_SIZE: nat := 4 + 16 + 4 + 2 * 8 + 2 + 6
  const APP_ID_SIZE: nat := 16
  const KILL_SWITCH_SIZE: nat := 2 * 4 + 8
  const TELEMETRY_SIZE: nat := 4 + 9 * 8
  const BLOB_SIZE: nat := 6 * 4
  const RECONCILE_COUNT_END: nat := 8
  const RECONCILE_RESPONSE_SIZE: nat := 4 * 4
  const DNS_CONFIG_SIZE: nat := 2 * 4 + 4 * 1 + 2 + 4 + 16 * 4
  const PERF_STATS_SIZE: nat := 4 + 5 * 8 + 2 * 4
  const DNS_STATS_SIZE: nat := 4 + 6 * 8
  const MODE_SIZE: nat := 4
  const MAX_IOCTL_BUFFER: nat := 4 * 1024 * 1024 + 24

  /** The input buffer seen through each of the casts the handlers apply to it. */
  datatype Input = Input(policy: Policy, policies: seq<Policy>, route: Route, routes: seq<Route>, key: AppId,
                         killSwitch: KillSwitchConfig, blob: StateBlob, dns: DnsConfig, mode: U32)

  datatype Request = Request(code: nat, inLength: nat, outLength: nat, input: Input)

  /** Foreign inputs of one request: caller check, buffer retrieval, allocations, NDIS poll, elapsed time. */
  datatype Env = Env(caller: NtStatus, inBuffer: NtStatus, outBuffer: NtStatus, alloc: nat -> bool, poll: Poll,
                     latency: U64)

  datatype Validation = Accept(required: nat) | Reject(status: NtStatus)

  function NeedInput(have: bool, length: nat, size: nat): Validation {
    if !have || length < size then Reject(InvalidParameter) else Accept(0)
  }

  function NeedSync(have: bool, length: nat, count: nat, limit: nat): Validation {
    if !have || length < SYNC_HEADER_SIZE || limit < count then Reject(InvalidParameter) else Accept(0)
  }

  function Validate(code: nat, inLength: nat, outLength: nat, have: bool, input: Input): Validation {
    if MAX_IOCTL_BUFFER < inLength || MAX_IOCTL_BUFFER < outLength then Reject(InvalidBufferSize)
    else
      var op := Decode(code);
      if op.None? then Reject(InvalidDeviceRequest)
      else match op.value
        case GetDriverState => Accept(DRIVER_STATE_SIZE)
        case SetAppPolicy => NeedInput(have, inLength, APP_POLICY_SIZE)
        case SyncPolicies => NeedSync(have, inLength, |input.policies|, MAX_SYNC_POLICIES)
        case SetRoute => NeedInput(have, inLength, ROUTE_SIZE)
        case ClearRoute => NeedInput(have, inLength, APP_ID_SIZE)
        case SyncRoutes => NeedSync(have, inLength, |input.routes|, MAX_SYNC_ROUTES)
        case SetKillSwitchMode => NeedInput(have, inLength, KILL_SWITCH_SIZE)
        case GetTelemetry => Accept(TELEMETRY_SIZE)
        case ExportState => Accept(BLOB_SIZE)
        case ImportState => NeedInput(have, inLength, BLOB_SIZE)
        case ReconcileFilters =>
          if outLength < RECONCILE_RESPONSE_SIZE then Reject(BufferTooSmall) else Accept(RECONCILE_RESPONSE_SIZE)
        case DnsSetConfig => NeedInput(have, inLength, DNS_CONFIG_SIZE)
        case GetPerfStats => Accept(PERF_STATS_SIZE)
        case GetDnsStats => Accept(DNS_STATS_SIZE)
        case SetGuardianMode => NeedInput(have, inLength, MODE_SIZE)
  }

  datatype TelemetryReport = TelemetryReport(counters: Telemetry, avgClassify: U64, maxClassify: U64)

  datatype PerfReport = PerfReport(dispatches: U64, rejects: U64, avgIpc: U64, maxIpc: U64,
                                   policyCount: nat, routeCount: nat)

  datatype Output =
    | Nothing
    | DriverStateOut(reported: Reported)
    | TelemetryOut(telemetry: TelemetryReport)
    | BlobOut(blob: StateBlob)
    | ReconcileOut(response: ReconcileResponse)
    | PerfOut(perf: PerfReport)
    | DnsStatsOut(stats: DnsStats)

  datatype Reply = Reply(status: NtStatus, bytes: nat, output: Output)

  function TelemetryReportOf(t: Telemetry): TelemetryReport {
    TelemetryReport(t, Average(t.classify.latencySum, t.classify.latencySamples), t.classify.maxLatency)
  }

  function PerfStats(s: State): PerfReport {
    var c := s.tel.ipc;
    PerfReport(c.dispatches, c.rejects, Average(c.latencySum, c.latencySamples), c.maxLatency, |s.policies|, |s.routes|)
  }

  function Status(status: NtStatus): Reply {
    Reply(status, 0, Nothing)
  }

  /** The handler of a validated operation. */
  function Handle(s: State, op: Op, input: Input, env: Env): (State, Reply) {
    match op
    case GetDriverState => (s, Reply(Success, DRIVER_STATE_SIZE, DriverStateOut(s.reported)))
    case SetAppPolicy =>
      var (t, status) := SetResult(s.policies, Some(input.policy), env.alloc(0));
      (s.(policies := t), Status(status))
    case SyncPolicies =>
      var (t, status) := SyncResult(s.policies, Some(input.policies), MAX_SYNC_POLICIES, env.alloc);
      (s.(policies := t), Status(status))
    case SetRoute =>
      var (t, status) := SetResult(s.routes, Some(input.route), env.alloc(0));
      (s.(routes := t), Status(status))
    case ClearRoute =>
      var (t, status) := RemoveResult(s.routes, input.key);
      (s.(routes := t), Status(status))
    case SyncRoutes =>
      var (t, status) := SyncResult(s.routes, Some(input.routes), MAX_SYNC_ROUTES, env.alloc);
      (s.(routes := t), Status(status))
    case SetKillSwitchMode =>
      var (ks, status) := SetKillSwitch(s.ks, Some(input.killSwitch));
      (if status.Ok() then s.(ks := ks, reported := s.reported.(killSwitchMode := ks.mode)) else s, Status(status))
    case GetTelemetry => (s, Reply(Success, TELEMETRY_SIZE, TelemetryOut(TelemetryReportOf(s.tel))))
    case ExportState => (s, Reply(Success, BLOB_SIZE, BlobOut(Export(s))))
    case ImportState => var (s', status) := Import(s, Some(input.blob)); (s', Status(status))
    case ReconcileFilters => (s, Reply(Success, RECONCILE_RESPONSE_SIZE, ReconcileOut(Reconcile(s))))
    case DnsSetConfig =>
      var (dns, status) := SetDnsConfig(s.dns, Some(input.dns));
      (s.(dns := dns), Status(status))
    case GetPerfStats => (s, Reply(Success, PERF_STATS_SIZE, PerfOut(PerfStats(s))))
    case GetDnsStats => (s, Reply(Success, DNS_STATS_SIZE, DnsStatsOut(s.dns.stats)))
    case SetGuardianMode => var (s', status) := SetMode(s, input.mode, env.poll); (s', Status(status))
  }

  /** Why a request is refused before any handler runs, or the bytes its handler must return. */
  function Admit(req: Request, env: Env): Validation {
    if !env.caller.Ok() then Reject(env.caller)
    else if 0 < req.inLength && !env.inBuffer.Ok() then Reject(env.inBuffer)
    else if 0 < req.outLength && !env.outBuffer.Ok() then Reject(env.outBuffer)
    else
      var v := Validate(req.code, req.inLength, req.outLength, 0 < req.inLength, req.input);
      if v.Accept? && req.outLength < v.required then Reject(BufferTooSmall) else v
  }

  /** One request up to and including its IPC record. */
  function Dispatch(s: State, req: Request, env: Env): (State, Reply) {
    var v := Admit(req, env);
    var (s', reply) :=
      if v.Reject? then (s, Status(v.status))
      else if Decode(req.code).None? then (s, Status(InvalidDeviceRequest))
      else Handle(s, Decode(req.code).value, req.input, env);
    (s'.(tel := s'.tel.(ipc := RecordIpc(s'.tel.ipc, !reply.status.Ok(), env.latency))), reply)
  }

  // ----- codes -----

  /** The function number and access of an operation's code, in the order of the operations. */
  function Rank(op: Op): (i: nat)
    ensures i < |ALL_OPS| && ALL_OPS[i] == op
    ensures Code(op) == CtlCode(0x800 + i, FILE_READ_DATA) || Code(op) == CtlCode(0x800 + i, FILE_WRITE_DATA)
  {
    match op
    case GetDriverState => 0
    case SetAppPolicy => 1
    case SyncPolicies => 2
    case SetRoute => 3
    case ClearRoute => 4
    case SyncRoutes => 5
    case SetKillSwitchMode => 6
    case GetTelemetry => 7
    case ExportState => 8
    case ImportState => 9
    case ReconcileFilters => 10
    case DnsSetConfig => 11
    case GetPerfStats => 12
    case GetDnsStats => 13
    case SetGuardianMode => 14
  }

  lemma CodesDistinct(a: Op, b: Op)
    requires Code(a) == Code(b)
    ensures a == b
  {
    assert Rank(a) == Rank(b);
  }

  lemma {:induction false} DecodeFromSound(code: nat, i: nat)
    requires i <= |ALL_OPS|
    ensures match DecodeFrom(code, i)
            case Some(op) => code == Code(op)
            case None => forall j :: i <= j < |ALL_OPS| ==> Code(ALL_OPS[j]) != code
    decreases |ALL_OPS| - i
  {
    if i < |ALL_OPS| { DecodeFromSound(code, i + 1); }
  }

  /** Every operation has its own control code and the switch finds it; no other code decodes. */
  lemma DecodeInverse(code: nat, op: Op)
    ensures Decode(code) == Some(op) <==> code == Code(op)
  {
    DecodeFromSound(code, 0);
    assert ALL_OPS[Rank(op)] == op;
    if code == Code(op) && Decode(code).Some? {
      CodesDistinct(Decode(code).value, op);
    }
  }

  // ----- validator and dispatcher agree -----

  /** The size of the structure whose presence in the input buffer the validator asks for, if any. */
  function InputSize(op: Op): nat {
    match op
    case SetAppPolicy => APP_POLICY_SIZE
    case SyncPolicies => SYNC_HEADER_SIZE
    case SetRoute => ROUTE_SIZE
    case ClearRoute => APP_ID_SIZE
    case SyncRoutes => SYNC_HEADER_SIZE
    case SetKillSwitchMode => KILL_SWITCH_SIZE
    case ImportState => BLOB_SIZE
    case DnsSetConfig => DNS_CONFIG_SIZE
    case SetGuardianMode => MODE_SIZE
    case _ => 0
  }

  /**
   How far into the input buffer handling a request goes: to the end of the structure, for a Sync
   to the end of the records its header counts, and for Reconcile, whenever there is an input
   buffer, to the end of the filter count.
   */
  function InputExtent(op: Op, req: Request): nat {
    match op
    case SyncPolicies => SYNC_HEADER_SIZE + |req.input.policies| * APP_POLICY_SIZE
    case SyncRoutes => SYNC_HEADER_SIZE + |req.input.routes| * ROUTE_SIZE
    case ReconcileFilters => if 0 < req.inLength then RECONCILE_COUNT_END else 0
    case _ => InputSize(op)
  }

  /** The lengths a caller has to respect beyond what the validator checks. */
  predicate LengthCovers(op: Op, req: Request) {
    match op
    case SyncPolicies => |req.input.policies| <= (req.inLength - SYNC_HEADER_SIZE) / APP_POLICY_SIZE
    case SyncRoutes => |req.input.routes| <= (req.inLength - SYNC_HEADER_SIZE) / ROUTE_SIZE
    case ReconcileFilters => !(0 < req.inLength < RECONCILE_COUNT_END)
    case _ => true
  }

  /** An admitted request is handled within its input length exactly when the length covers it. */
  lemma InputWithinExactly(req: Request, env: Env)
    requires Admit(req, env).Accept?
    ensures var op := Decode(req.code).value;
            InputExtent(op, req) <= req.inLength <==> LengthCovers(op, req)
  {
    AdmittedFits(req, env);
    var n := req.inLength - SYNC_HEADER_SIZE;
    match Decode(req.code).value
    case SyncPolicies =>
      assert |req.input.policies| * APP_POLICY_SIZE <= n <==> |req.input.policies| <= n / APP_POLICY_SIZE;
    case SyncRoutes =>
      assert |req.input.routes| * ROUTE_SIZE <= n <==> |req.input.routes| <= n / ROUTE_SIZE;
    case _ =>
  }

  /** A Reconcile with four bytes of input is admitted and answered, though its filter count ends at eight. */
  lemma ShortReconcile(s: State, input: Input, env: Env) returns (req: Request)
    requires env.caller.Ok() && env.inBuffer.Ok() && env.outBuffer.Ok()
    ensures req.code == Code(ReconcileFilters) && req.inLength == 4
    ensures Admit(req, env).Accept? && Dispatch(s, req, env).1.status.Ok()
    ensures req.inLength < InputExtent(ReconcileFilters, req)
  {
    req := Request(Code(ReconcileFilters), 4, RECONCILE_RESPONSE_SIZE, input);
    DecodeInverse(req.code, ReconcileFilters);
  }

  /** A Sync that is nothing but its header is admitted with every count up to the limit. */
  lemma ShortSync(input: Input, env: Env) returns (req: Request)
    requires env.caller.Ok() && env.inBuffer.Ok() && 0 < |input.policies| <= MAX_SYNC_POLICIES
    ensures req.code == Code(SyncPolicies) && req.inLength == SYNC_HEADER_SIZE && req.input == input
    ensures Admit(req, env).Accept? && req.inLength < InputExtent(SyncPolicies, req)
  {
    req := Request(Code(SyncPolicies), SYNC_HEADER_SIZE, 0, input);
    DecodeInverse(req.code, SyncPolicies);
  }

  /**
   Whatever code and lengths arrive, an admitted request has a handler, the structure the
   validator asks for and room for the reply; it is handled within its input length exactly when
   the length covers it. Success returns exactly the required bytes, failure none.
   */
  lemma ReplyShape(s: State, req: Request, env: Env)
    ensures var v, reply := Admit(req, env), Dispatch(s, req, env).1;
            && (v.Accept? ==>
                  && Decode(req.code).Some?
                  && InputSize(Decode(req.code).value) <= req.inLength
                  && v.required <= req.outLength
                  && (Decode(req.code).value == SyncPolicies ==> |req.input.policies| <= MAX_SYNC_POLICIES)
                  && (Decode(req.code).value == SyncRoutes ==> |req.input.routes| <= MAX_SYNC_ROUTES)
                  && (InputExtent(Decode(req.code).value, req) <= req.inLength
                      <==> LengthCovers(Decode(req.code).value, req)))
            && (reply.status.Ok() ==> v.Accept? && reply.bytes == v.required)
            && (!reply.status.Ok() ==> reply.bytes == 0 && reply.output == Nothing)
  {
    if Admit(req, env).Accept? {
      AdmittedFits(req, env);
      InputWithinExactly(req, env);
      HandlerShape(s, Decode(req.code).value, req, env);
      AdmittedAnswer(s, Decode(req.code).value, req, env);
    } else {
      RejectedAnswer(s, req, env);
    }
  }

  lemma AdmittedAnswer(s: State, op: Op, req: Request, env: Env)
    requires Admit(req, env).Accept? && Decode(req.code) == Some(op)
    ensures Dispatch(s, req, env).1 == Handle(s, op, req.input, env).1
  {
  }

  lemma RejectedAnswer(s: State, req: Request, env: Env)
    requires Admit(req, env).Reject?
    ensures !Admit(req, env).status.Ok() && Dispatch(s, req, env).1 == Status(Admit(req, env).status)
  {
  }

  lemma AdmittedFits(req: Request, env: Env)
    requires Admit(req, env).Accept?
    ensures Decode(req.code).Some? && InputSize(Decode(req.code).value) <= req.inLength
    ensures Admit(req, env).required <= req.outLength
    ensures Decode(req.code).value == SyncPolicies ==> |req.input.policies| <= MAX_SYNC_POLICIES
    ensures Decode(req.code).value == SyncRoutes ==> |req.input.routes| <= MAX_SYNC_ROUTES
  {
  }

  lemma HandlerShape(s: State, op: Op, req: Request, env: Env)
    requires Admit(req, env).Accept? && Decode(req.code) == Some(op)
    ensures var reply := Handle(s, op, req.input, env).1;
            if reply.status.Ok() then reply.bytes == Admit(req, env).required
            else reply.bytes == 0 && reply.output == Nothing
  {
  }

  /** The state with everything a request may change through its own IPC record forgotten. */
  function Core(s: State): State {
    s.(tel := ZERO_TELEMETRY)
  }

  /**
   A failed request changes nothing but the IPC counters, unless it is a Sync that passed
   validation: then its table, and only it, holds exactly the payload prefix before the first
   record with a foreign version or a failed allocation.
   */
  lemma FailureLeavesState(s: State, req: Request, env: Env)
    requires !Dispatch(s, req, env).1.status.Ok()
    ensures var s', op := Dispatch(s, req, env).0, Decode(req.code);
            && s'.tel == s.tel.(ipc := RecordIpc(s.tel.ipc, true, env.latency))
            && if Admit(req, env).Accept? && op == Some(SyncPolicies) then
                 var n := Accepted(req.input.policies, 0, env.alloc);
                 n < |req.input.policies| && Core(s') == Core(s).(policies := Fold(req.input.policies[..n]))
               else if Admit(req, env).Accept? && op == Some(SyncRoutes) then
                 var n := Accepted(req.input.routes, 0, env.alloc);
                 n < |req.input.routes| && Core(s') == Core(s).(routes := Fold(req.input.routes[..n]))
               else Core(s') == Core(s)
  {
    if Admit(req, env).Accept? {
      match Decode(req.code).value
      case SyncPolicies => SyncOutcome(s.policies, req.input.policies, MAX_SYNC_POLICIES, env.alloc);
      case SyncRoutes => SyncOutcome(s.routes, req.input.routes, MAX_SYNC_ROUTES, env.alloc);
      case _ =>
    }
  }

  /** A successful Sync replaces its table by what the payload stands for, whatever was there. */
  lemma SyncReplaces(s: State, req: Request, env: Env)
    requires Dispatch(s, req, env).1.status.Ok()
    ensures var s', op := Dispatch(s, req, env).0, Decode(req.code);
            && (op == Some(SyncPolicies) ==> Core(s') == Core(s).(policies := Fold(req.input.policies)))
            && (op == Some(SyncRoutes) ==> Core(s') == Core(s).(routes := Fold(req.input.routes)))
  {
    if Admit(req, env).Accept? && Decode(req.code) == Some(SyncPolicies) {
      var rs := req.input.policies;
      SyncOutcome(s.policies, rs, MAX_SYNC_POLICIES, env.alloc);
      assert rs[..|rs|] == rs;
    }
    if Admit(req, env).Accept? && Decode(req.code) == Some(SyncRoutes) {
      var rs := req.input.routes;
      SyncOutcome(s.routes, rs, MAX_SYNC_ROUTES, env.alloc);
      assert rs[..|rs|] == rs;
    }
  }

  /** Exactly when the handler of an admitted request succeeds. */
  predicate Succeeds(s: State, op: Op, input: Input, env: Env) {
    match op
    case SetAppPolicy =>
      input.policy.version == RECORD_VERSION && env.alloc(0)
      && (|s.policies| < MAX_ENTRIES || Lookup(s.policies, input.policy.key).Some?)
    case SetRoute =>
      input.route.version == RECORD_VERSION && env.alloc(0)
      && (|s.routes| < MAX_ENTRIES || Lookup(s.routes, input.route.key).Some?)
    case ClearRoute => Lookup(s.routes, input.key).Some?
    case SyncPolicies =>
      forall i :: 0 <= i < |input.policies| ==> input.policies[i].version == RECORD_VERSION && env.alloc(i)
    case SyncRoutes => forall i :: 0 <= i < |input.routes| ==> input.routes[i].version == RECORD_VERSION && env.alloc(i)
    case SetKillSwitchMode => input.killSwitch.version == KS_VERSION && input.killSwitch.mode <= KS_RESTORE
    case ImportState => input.blob.version == BLOB_VERSION
    case DnsSetConfig => input.dns.version == DNS_VERSION
    case SetGuardianMode => input.mode <= MODE_HYBRID
    case _ => true
  }

  /**
   A request succeeds exactly when it is admitted and its argument, the allocations and the room
   in its table allow it; in particular a Sync never fails for capacity.
   */
  lemma SucceedsExactly(s: State, req: Request, env: Env)
    ensures Dispatch(s, req, env).1.status.Ok() <==>
            Admit(req, env).Accept? && Succeeds(s, Decode(req.code).value, req.input, env)
  {
    if Admit(req, env).Accept? {
      HandlerSucceeds(s, Decode(req.code).value, req, env);
    }
  }

  lemma HandlerSucceeds(s: State, op: Op, req: Request, env: Env)
    requires Admit(req, env).Accept? && Decode(req.code) == Some(op)
    ensures Handle(s, op, req.input, env).1.status.Ok() <==> Succeeds(s, op, req.input, env)
  {
    match op
    case SyncPolicies => SyncOutcome(s.policies, req.input.policies, MAX_SYNC_POLICIES, env.alloc);
    case SyncRoutes => SyncOutcome(s.routes, req.input.routes, MAX_SYNC_ROUTES, env.alloc);
    case _ =>
  }

  // ----- admission, from the request alone -----

  /** The size of the structure an operation answers with, if any. */
  function OutputSize(op: Op): nat {
    match op
    case GetDriverState => DRIVER_STATE_SIZE
    case GetTelemetry => TELEMETRY_SIZE
    case ExportState => BLOB_SIZE
    case ReconcileFilters => RECONCILE_RESPONSE_SIZE
    case GetPerfStats => PERF_STATS_SIZE
    case GetDnsStats => DNS_STATS_SIZE
    case _ => 0
  }

  /** The caller passed its check, the buffers there are could be retrieved, and neither is too long. */
  predicate BuffersFine(req: Request, env: Env) {
    && env.caller.Ok() && (0 < req.inLength ==> env.inBuffer.Ok()) && (0 < req.outLength ==> env.outBuffer.Ok())
    && req.inLength <= 4194328 && req.outLength <= 4194328
  }

  /** The input covers the operation's structure, a Sync counts no more than its limit, and the answer has room. */
  predicate WellFormed(op: Op, req: Request) {
    && InputSize(op) <= req.inLength && OutputSize(op) <= req.outLength
    && (op == SyncPolicies ==> |req.input.policies| <= 256) && (op == SyncRoutes ==> |req.input.routes| <= 512)
  }

  /** A request is admitted exactly when its code is an operation's and it is well formed for it. */
  lemma AdmittedExactly(req: Request, env: Env)
    ensures Admit(req, env).Accept? <==>
            BuffersFine(req, env) && exists op :: req.code == Code(op) && WellFormed(op, req)
    ensures forall op :: req.code == Code(op) ==>
              && (Admit(req, env).Accept? <==> BuffersFine(req, env) && WellFormed(op, req))
              && (Admit(req, env).Accept? ==> Admit(req, env).required == OutputSize(op))
  {
    forall op | req.code == Code(op)
      ensures Admit(req, env).Accept? <==> BuffersFine(req, env) && WellFormed(op, req)
      ensures Admit(req, env).Accept? ==> Admit(req, env).required == OutputSize(op)
    {
      DecodeInverse(req.code, op);
      AdmittedFor(op, req, env);
    }
    if Decode(req.code).Some? { DecodeInverse(req.code, Decode(req.code).value); }
  }

  lemma AdmittedFor(op: Op, req: Request, env: Env)
    requires Decode(req.code) == Some(op)
    ensures Admit(req, env).Accept? <==> BuffersFine(req, env) && WellFormed(op, req)
    ensures Admit(req, env).Accept? ==> Admit(req, env).required == OutputSize(op)
  {
  }

  /** A well-formed request of an operation's code succeeds exactly when the operation does. */
  lemma AnswersExactly(s: State, op: Op, req: Request, env: Env)
    requires req.code == Code(op)
    ensures Dispatch(s, req, env).1.status.Ok() <==>
            BuffersFine(req, env) && WellFormed(op, req) && Succeeds(s, op, req.input, env)
  {
    DecodeInverse(req.code, op);
    AdmittedExactly(req, env);
    SucceedsExactly(s, req, env);
  }

  /** The status with which a request is refused, in the order of the checks; a refused request has no effect. */
  lemma RefusedExactly(s: State, req: Request, env: Env)
    requires Admit(req, env).Reject?
    ensures Core(Dispatch(s, req, env).0) == Core(s)
    ensures Dispatch(s, req, env).1 == Reply(
              if !env.caller.Ok() then env.caller
              else if 0 < req.inLength && !env.inBuffer.Ok() then env.inBuffer
              else if 0 < req.outLength && !env.outBuffer.Ok() then env.outBuffer
              else if 4194328 < req.inLength || 4194328 < req.outLength then InvalidBufferSize
              else if forall op :: req.code != Code(op) then InvalidDeviceRequest
              else if exists op :: req.code == Code(op) && req.outLength < OutputSize(op) then BufferTooSmall
              else InvalidParameter, 0, Nothing)
  {
    if Decode(req.code).Some? {
      DecodeInverse(req.code, Decode(req.code).value);
      if BuffersFine(req, env) { RefusedFor(Decode(req.code).value, req, env); }
      forall op | req.code == Code(op) ensures op == Decode(req.code).value { DecodeInverse(req.code, op); }
    } else {
      forall op ensures req.code != Code(op) { DecodeInverse(req.code, op); }
    }
  }

  lemma RefusedFor(op: Op, req: Request, env: Env)
    requires Decode(req.code) == Some(op) && Admit(req, env).Reject?
    requires BuffersFine(req, env)
    ensures Admit(req, env).status ==
            if req.outLength < OutputSize(op) then BufferTooSmall else InvalidParameter
  {
  }

  /** The fields of a control code: device type, access, function number and method. */
  lemma CodeFields(op: Op)
    ensures Code(op) / 0x1_0000 == 0x8010 && Code(op) % 4 == 0
    ensures var n := Code(op) % 0x4000 / 4 - 0x800; 0 <= n < 15 && ALL_OPS[n] == op
    ensures Code(op) / 0x4000 % 4 ==
            if op in {GetDriverState, GetTelemetry, ExportState, GetPerfStats, GetDnsStats} then 1 else 2
  {
  }
}

/**
 The driver's global state as one value, and the effect on it of every component operation:
 classification, DNS observation, mode coordination, state export and import, recovery, callout
 registration, start-up and unload. Results of foreign kernel calls are arguments.
 */
module DriverModel {
  import opened Base
  import opened OrderedTable
  import opened Policies
  import opened Decisions
  import opened Counters

  const MODE_WFP: U32 := 0
  const MODE_NDIS: U32 := 1
  const MODE_HYBRID: U32 := 2

  const CALLOUT_COUNT: U32 := 4
  const DNS_PORT: U16 := 53
  const DNS_VERSION: U32 := 1
  const DNS_CAP_OBSERVE: U32 := 1
  const BLOB_VERSION: U32 := 1
  const RECOVERY_OK: U32 := 0

  type Pids = s: seq<U32> | |s| == 16 witness [0, 0, 0, 0, 0, 0, 0, 0, 0, 0, 0, 0, 0, 0, 0, 0]

  datatype DnsConfig = DnsConfig(version: U32, capabilities: U32, enabled: bool, observeOnly: bool,
                                 excludedCount: U32, excluded: Pids)

  datatype DnsStats = DnsStats(observed: U64, skippedExcluded: U64, skippedDisabled: U64)

  datatype Dns = Dns(config: DnsConfig, stats: DnsStats)

  datatype Coordinator = Coordinator(mode: U32, ndisCount: U32, pollGeneration: U32, active: bool)

  datatype Manager = Manager(generation: U32, wfpCount: U32, recoveryStatus: U32)

  datatype Callouts = Callouts(registered: bool, count: U32)

  datatype Lifecycle = Stopped | Starting | Running | Recovering | LifecycleFailed

  /** The state GET_DRIVER_STATE reports; the version fields are constants and left out. */
  datatype Reported = Reported(lifecycle: Lifecycle, calloutsRegistered: U32, filterCount: U32,
                               generation: U32, killSwitchMode: U32, lastError: NtStatus, mode: U32)

  datatype State = State(policies: seq<Policy>, routes: seq<Route>, ks: KillSwitch, dns: Dns,
                         coord: Coordinator, mgr: Manager, callouts: Callouts, reported: Reported, tel: Telemetry)

  /** What the NDIS driver answers to a poll. */
  datatype Poll = Poll(status: NtStatus, count: U32)

  datatype StateBlob = StateBlob(version: U32, policyCount: nat, routeCount: nat, killSwitchMode: U32, generation: U32)

  datatype ReconcileResponse = ReconcileResponse(removedOrphans: U32, generation: U32, status: U32)

  // ----- classification -----

  function RecordOutcome(t: Telemetry, o: Outcome, latency: U64): Telemetry {
    if o.Decided? then t.(classify := RecordClassify(t.classify, o.verdict.action, latency))
    else t.(errors := Bump(t.errors))
  }

  function DecisionIn(s: State, conn: Option<Connection>): Outcome {
    Decide(s.ks, s.policies, s.routes, conn)
  }

  function Classify(s: State, conn: Option<Connection>, latency: U64): (State, Outcome) {
    var o := DecisionIn(s, conn);
    (s.(tel := RecordOutcome(s.tel, o, latency)), o)
  }

  // ----- DNS observation -----

  function InitialDns(): Dns {
    Dns(DnsConfig(DNS_VERSION, DNS_CAP_OBSERVE, false, true, 0, [0, 0, 0, 0, 0, 0, 0, 0, 0, 0, 0, 0, 0, 0, 0, 0]),
        DnsStats(0, 0, 0))
  }

  /** The DNS layer as loaded: all zero until registration initialises it. */
  function ZeroDns(): Dns {
    Dns(DnsConfig(0, 0, false, false, 0, [0, 0, 0, 0, 0, 0, 0, 0, 0, 0, 0, 0, 0, 0, 0, 0]), DnsStats(0, 0, 0))
  }

  function SetDnsConfig(dns: Dns, arg: Option<DnsConfig>): (Dns, NtStatus) {
    if arg.None? || arg.value.version != DNS_VERSION then (dns, InvalidParameter)
    else (dns.(config := arg.value.(observeOnly := true)), Success)
  }

  /** The pid stands among the first ExcludedPidCount entries that exist. */
  ghost predicate Excluded(c: DnsConfig, pid: U32) {
    exists i :: 0 <= i < 16 && i < c.excludedCount && c.excluded[i] == pid
  }

  datatype DnsClass = OtherPort | Disabled | ExcludedPid | ToObserve

  ghost function ClassifyDns(c: DnsConfig, port: U16, pid: U32): DnsClass {
    if port != DNS_PORT then OtherPort
    else if !c.enabled then Disabled
    else if Excluded(c, pid) then ExcludedPid
    else ToObserve
  }

  function CountDns(st: DnsStats, k: DnsClass): DnsStats {
    match k
    case OtherPort => st
    case Disabled => st.(skippedDisabled := Bump(st.skippedDisabled))
    case ExcludedPid => st.(skippedExcluded := Bump(st.skippedExcluded))
    case ToObserve => st.(observed := Bump(st.observed))
  }

  lemma CountDnsWords(a: nat, b: nat, c: nat, k: DnsClass)
    ensures CountDns(DnsStats(Low64(a), Low64(b), Low64(c)), k) ==
            DnsStats(Low64(if k == ToObserve then a + 1 else a), Low64(if k == ExcludedPid then b + 1 else b),
                     Low64(if k == Disabled then c + 1 else c))
  {
    Low64Add(a, 1);
    Low64Add(b, 1);
    Low64Add(c, 1);
  }

  ghost function QueryDns(s: State, port: U16, pid: U32): (State, bool) {
    var k := ClassifyDns(s.dns.config, port, pid);
    var s' := s.(dns := s.dns.(stats := CountDns(s.dns.stats, k)));
    (if k == ToObserve then s'.(tel := s.tel.(dnsObserved := Bump(s.tel.dnsObserved))) else s', k == ToObserve)
  }

  // ----- mode coordination -----

  function CombinedCount(c: Coordinator, wfpCount: U32): U32 {
    if c.mode == MODE_HYBRID then Add32(wfpCount, c.ndisCount)
    else if c.mode == MODE_NDIS then c.ndisCount
    else wfpCount
  }

  function ReportCount(s: State): State {
    s.(reported := s.reported.(filterCount := CombinedCount(s.coord, s.mgr.wfpCount)))
  }

  function PollNdis(s: State, poll: Poll): (State, NtStatus) {
    var c := if poll.status.Ok() then s.coord.(ndisCount := poll.count) else s.coord;
    (ReportCount(s.(coord := c.(pollGeneration := Add32(c.pollGeneration, 1)))), poll.status)
  }

  function SetNdisCount(s: State, count: U32): State {
    ReportCount(s.(coord := s.coord.(ndisCount := count)))
  }

  function SetMode(s: State, mode: U32, poll: Poll): (State, NtStatus) {
    if MODE_HYBRID < mode then (s, InvalidParameter)
    else
      var active := s.coord.active && mode == MODE_HYBRID;
      var s1 := s.(coord := s.coord.(mode := mode, active := active), reported := s.reported.(mode := mode));
      if mode == MODE_HYBRID && !active then
        (ReportCount(PollNdis(s1.(coord := s1.coord.(active := true)), poll).0), Success)
      else if mode == MODE_NDIS then (ReportCount(PollNdis(s1, poll).0), Success)
      else (ReportCount(s1), Success)
  }

  // ----- state manager and recovery -----

  function Export(s: State): StateBlob {
    StateBlob(BLOB_VERSION, |s.policies|, |s.routes|, s.ks.mode, s.mgr.generation)
  }

  function Import(s: State, arg: Option<StateBlob>): (State, NtStatus) {
    if arg.None? || arg.value.version != BLOB_VERSION then (s, InvalidParameter)
    else
      (s.(mgr := s.mgr.(generation := arg.value.generation),
          reported := s.reported.(generation := arg.value.generation, killSwitchMode := arg.value.killSwitchMode)),
       Success)
  }

  function BeginRecovery(s: State): State {
    var g := Add32(s.mgr.generation, 1);
    s.(mgr := s.mgr.(generation := g, recoveryStatus := RECOVERY_OK), reported := s.reported.(generation := g))
  }

  function Reconcile(s: State): ReconcileResponse {
    ReconcileResponse(0, s.mgr.generation, s.mgr.recoveryStatus)
  }

  // ----- callout registration -----

  /** Whether the device object exists, and the status of each FwpsCalloutRegister1 call. */
  datatype RegisterEnv = RegisterEnv(device: bool, authV4: NtStatus, authV6: NtStatus, flowV4: NtStatus,
                                     flowV6: NtStatus)

  function RegisterStep(c: Callouts, status: NtStatus): Callouts {
    if status.Ok() then c.(count := Add32(c.count, 1)) else c
  }

  function RegisterCallouts(c: Callouts, env: RegisterEnv): (Callouts, NtStatus) {
    if !env.device then (c, DeviceNotReady)
    else if !env.authV4.Ok() then (c, env.authV4)
    else
      var c1 := RegisterStep(c, env.authV4);
      if !env.authV6.Ok() then (c1, env.authV6)
      else
        var c2 := RegisterStep(c1, env.authV6);
        if !env.flowV4.Ok() then (c2, env.flowV4)
        else
          var c3 := RegisterStep(c2, env.flowV4);
          if !env.flowV6.Ok() then (c3, env.flowV6)
          else (RegisterStep(c3, env.flowV6).(registered := true), Success)
  }

  /** Registration also resets the DNS layer, unless the callouts are registered already. */
  function Register(s: State, env: RegisterEnv): (State, NtStatus) {
    if s.callouts.registered then (s, Success)
    else
      var (c, status) := RegisterCallouts(s.callouts, env);
      (s.(callouts := c, dns := InitialDns()), status)
  }

  function Unregister(s: State): State {
    if s.callouts.registered then s.(callouts := Callouts(false, 0)) else s
  }

  // ----- lifecycle -----

  /** The foreign inputs of DriverEntry; None is a registry value that could not be read. */
  datatype EntryEnv = EntryEnv(registryMode: Option<U32>, registryKillSwitch: Option<U32>,
                               driverCreate: NtStatus, deviceCreate: NtStatus, register: RegisterEnv, poll: Poll)

  function RegistryMode(v: Option<U32>): U32 {
    if v.None? || MODE_HYBRID < v.value then MODE_WFP else v.value
  }

  function RegistryKillSwitch(v: Option<U32>): U32 {
    if v.None? || KS_RESTORE < v.value then KS_OFF else v.value
  }

  /** The image as loaded, before DriverEntry runs. */
  function Loaded(): State {
    State([], [], KillSwitch(KS_OFF, 0), ZeroDns(), Coordinator(MODE_WFP, 0, 0, false), Manager(0, 0, RECOVERY_OK),
          Callouts(false, 0), Reported(Stopped, 0, 0, 0, 0, Success, MODE_WFP), ZERO_TELEMETRY)
  }

  function FailEntry(s: State, status: NtStatus): (State, NtStatus) {
    (s.(reported := s.reported.(lastError := status, lifecycle := LifecycleFailed)), status)
  }

  function Initialized(s: State, env: EntryEnv): State {
    s.(policies := [], routes := [], mgr := Manager(0, 0, RECOVERY_OK), tel := ZERO_TELEMETRY,
       ks := KillSwitch(RegistryKillSwitch(env.registryKillSwitch), 0),
       reported := Reported(Starting, 0, 0, 0, 0, Success, RegistryMode(env.registryMode)))
  }

  function Enter(s: State, env: EntryEnv): (State, NtStatus) {
    var s0 := Initialized(s, env);
    if !env.driverCreate.Ok() then FailEntry(s0, env.driverCreate)
    else if !env.deviceCreate.Ok() then FailEntry(s0, env.deviceCreate)
    else
      var (s1, registered) := Register(s0, env.register);
      if !registered.Ok() then FailEntry(s1, registered)
      else
        var s2 := s1.(reported := s1.reported.(calloutsRegistered := s1.callouts.count, lifecycle := Recovering));
        var (s3, moded) := SetMode(s2, s2.reported.mode, env.poll);
        if !moded.Ok() then FailEntry(s3, moded)
        else
          var s4 := BeginRecovery(s3);
          (s4.(reported := s4.reported.(lifecycle := Running, lastError := Success)), Success)
  }

  function Unload(s: State): State {
    var s1 := s.(reported := s.reported.(lifecycle := Stopped), coord := s.coord.(active := false));
    Unregister(s1).(policies := [], routes := [])
  }

  // ----- what single operations guarantee -----

  /** Registering from a fresh image succeeds exactly when all four calls do, and then counts four. */
  lemma FreshRegistration(env: RegisterEnv)
    ensures var (c, status) := RegisterCallouts(Callouts(false, 0), env);
            && (status.Ok() <==> env.device && env.authV4.Ok() && env.authV6.Ok() && env.flowV4.Ok() && env.flowV6.Ok())
            && (status.Ok() <==> c.registered)
            && (status.Ok() ==> c.count == CALLOUT_COUNT)
            && c.count <= CALLOUT_COUNT
  {
  }

  /**
   A registration that failed halfway keeps its count, and Unregister then returns without
   undoing anything; retrying successfully counts the earlier callouts again. The count is
   right after a successful retry exactly when it was zero before. The driver calls registration
   once, from DriverEntry (driver/guardian/driver.c:120), on a freshly loaded image, so the case
   of a retry in the same image is a property of the function that no run of the driver reaches.
   */
  lemma RetriedRegistration(c: Callouts, env: RegisterEnv)
    requires !c.registered && c.count <= CALLOUT_COUNT && RegisterCallouts(c, env).1.Ok()
    ensures RegisterCallouts(c, env).0.count == CALLOUT_COUNT <==> c.count == 0
  {
  }

  /** After an import, export answers with the imported generation and everything else live. */
  lemma ExportAfterImport(s: State, blob: StateBlob)
    requires blob.version == BLOB_VERSION
    ensures var s' := Import(s, Some(blob)).0;
            Export(s') == Export(s).(generation := blob.generation)
            && (forall conn :: DecisionIn(s', conn) == DecisionIn(s, conn))
            && (s'.reported.killSwitchMode == s'.ks.mode <==> blob.killSwitchMode == s.ks.mode)
  {
  }

  /** One of the exclusion slots in use, of the sixteen there are, holds the pid. */
  ghost predicate InUseSlot(c: DnsConfig, pid: U32) {
    exists i :: 0 <= i < 16 && i + 1 <= c.excludedCount && c.excluded[i] == pid
  }

  /** What a query answers and which statistic counts it, for every port and process. */
  lemma QueryExactly(s: State, port: U16, pid: U32)
    ensures var (s', observe) := QueryDns(s, port, pid);
            var c, st, st' := s.dns.config, s.dns.stats, s'.dns.stats;
            && (observe <==> port == 53 && c.enabled && !InUseSlot(c, pid))
            && st'.skippedDisabled == (if port == 53 && !c.enabled then Add64(st.skippedDisabled, 1)
                                       else st.skippedDisabled)
            && st'.skippedExcluded == (if port == 53 && c.enabled && InUseSlot(c, pid) then Add64(st.skippedExcluded, 1)
                                       else st.skippedExcluded)
            && st'.observed == (if observe then Add64(st.observed, 1) else st.observed)
            && s'.tel.dnsObserved == (if observe then Add64(s.tel.dnsObserved, 1) else s.tel.dnsObserved)
            && s' == s.(dns := Dns(c, st'), tel := s.tel.(dnsObserved := s'.tel.dnsObserved))
  {
    assert InUseSlot(s.dns.config, pid) <==> Excluded(s.dns.config, pid);
  }

  /** A configuration of version 1 is stored as it is, but for ObserveOnly; statistics stay. */
  lemma SetDnsExactly(dns: Dns, arg: Option<DnsConfig>)
    ensures var (dns', status) := SetDnsConfig(dns, arg);
            if arg.Some? && arg.value.version == 1 then
              && status == Success && dns'.stats == dns.stats && dns'.config.observeOnly
              && dns'.config.version == 1 && dns'.config.capabilities == arg.value.capabilities
              && dns'.config.enabled == arg.value.enabled && dns'.config.excludedCount == arg.value.excludedCount
              && dns'.config.excluded == arg.value.excluded
            else status == InvalidParameter && dns' == dns
  {
  }

  /** The first n calls succeeded and were counted; with n == 4 all did, otherwise call n failed. */
  ghost predicate StopsAfter(c: Callouts, c': Callouts, status: NtStatus, calls: seq<NtStatus>, n: nat)
    requires |calls| == 4
  {
    && n <= 4 && (forall i :: 0 <= i < n ==> calls[i].Ok()) && c'.count == c.count + n
    && (if n == 4 then status == Success && c'.registered
        else !calls[n].Ok() && status == calls[n] && c'.registered == c.registered)
  }

  /** A registration counts the calls that succeed before the first that fails, whose status it returns. */
  lemma RegistrationExactly(c: Callouts, env: RegisterEnv)
    requires c.count <= CALLOUT_COUNT
    ensures var (c', status) := RegisterCallouts(c, env);
            if !env.device then c' == c && status == DeviceNotReady
            else exists n :: StopsAfter(c, c', status, [env.authV4, env.authV6, env.flowV4, env.flowV6], n)
  {
    var calls := [env.authV4, env.authV6, env.flowV4, env.flowV6];
    var n := if !calls[0].Ok() then 0 else if !calls[1].Ok() then 1 else if !calls[2].Ok() then 2
             else if !calls[3].Ok() then 3 else 4;
    var (c', status) := RegisterCallouts(c, env);
    if env.device { assert StopsAfter(c, c', status, calls, n); }
  }

  /** Registering twice does nothing; otherwise the callouts are counted and the DNS layer starts anew, disabled. */
  lemma RegisterExactly(s: State, env: RegisterEnv)
    ensures var (s', status) := Register(s, env);
            if s.callouts.registered then s' == s && status == Success
            else
              && (s'.callouts, status) == RegisterCallouts(s.callouts, env)
              && s' == s.(callouts := s'.callouts, dns := s'.dns)
              && !s'.dns.config.enabled && s'.dns.stats == DnsStats(0, 0, 0)
  {
  }

  /** A mode request: refused beyond Hybrid, else stored twice, polling for Ndis and on entry into Hybrid. */
  lemma SetModeExactly(s: State, mode: U32, poll: Poll)
    ensures var (s', status) := SetMode(s, mode, poll);
            if 2 < mode then s' == s && status == InvalidParameter
            else
              var polls := mode == 1 || (mode == 2 && !s.coord.active);
              && status == Success
              && s'.coord.mode == s'.reported.mode == mode && (s'.coord.active <==> mode == 2)
              && s'.coord.ndisCount == (if polls && poll.status.Ok() then poll.count else s.coord.ndisCount)
              && s'.coord.pollGeneration == (if polls then Add32(s.coord.pollGeneration, 1) else s.coord.pollGeneration)
              && s'.reported.filterCount == (if mode == 0 then s.mgr.wfpCount
                                             else if mode == 1 then s'.coord.ndisCount
                                             else Add32(s.mgr.wfpCount, s'.coord.ndisCount))
              && s' == s.(coord := s'.coord,
                          reported := s.reported.(mode := mode, filterCount := s'.reported.filterCount))
  {
  }

  /** Recovery moves the generation on by one, modulo 2^32, in both places. */
  lemma RecoveryExactly(s: State)
    ensures var s' := BeginRecovery(s);
            && s'.mgr.generation == s'.reported.generation == (s.mgr.generation + 1) % TWO32
            && s'.mgr.recoveryStatus == 0 && s'.mgr.wfpCount == s.mgr.wfpCount
            && s' == s.(mgr := s'.mgr, reported := s.reported.(generation := s'.reported.generation))
  {
  }
}

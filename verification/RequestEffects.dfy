/**
 What each of the fifteen requests does when it succeeds: the change of its own part of the state
 in terms of what lookups and reports answer afterwards, and nothing else but its IPC record.
 */
module RequestEffects {
  import opened Base
  import opened OrderedTable
  import opened Policies
  import opened Decisions
  import opened Counters
  import opened DriverModel
  import opened Requests

  /** A request with the code of the operation that is answered with success. */
  predicate Succeeded(s: State, op: Op, req: Request, env: Env) {
    req.code == Code(op) && Dispatch(s, req, env).1.status.Ok()
  }

  /** Then the state is the handler's, its reply is the handler's, and the record counts one accepted request. */
  lemma Handled(s: State, op: Op, req: Request, env: Env)
    requires Succeeded(s, op, req, env)
    ensures Admit(req, env).Accept? && Decode(req.code) == Some(op)
    ensures Dispatch(s, req, env).1 == Handle(s, op, req.input, env).1
    ensures Core(Dispatch(s, req, env).0) == Core(Handle(s, op, req.input, env).0)
  {
    DecodeInverse(req.code, op);
  }

  /** Whatever its outcome, a request leaves the telemetry with one more dispatch and its latency. */
  lemma RequestRecorded(s: State, req: Request, env: Env)
    ensures var (s', reply) := Dispatch(s, req, env);
            var i, i' := s.tel.ipc, s'.tel.ipc;
            && s'.tel == s.tel.(ipc := i')
            && i'.dispatches == Add64(i.dispatches, 1)
            && i'.rejects == (if reply.status.Ok() then i.rejects else Add64(i.rejects, 1))
            && i'.latencySum == Add64(i.latencySum, env.latency) && i'.latencySamples == Add64(i.latencySamples, 1)
            && i'.maxLatency >= i.maxLatency && i'.maxLatency >= env.latency
            && i'.maxLatency in {i.maxLatency, env.latency}
  {
    if Decode(req.code).Some? { HandlerTelemetry(s, Decode(req.code).value, req.input, env); }
  }

  lemma HandlerTelemetry(s: State, op: Op, input: Input, env: Env)
    ensures Handle(s, op, input, env).0.tel == s.tel
  {
  }

  // ----- the tables -----

  /** SET_APP_POLICY stores the policy: lookups of its key answer with it, and nothing else changes. */
  lemma SetAppPolicyStores(s: State, req: Request, env: Env)
    requires Distinct(s.policies) && Succeeded(s, SetAppPolicy, req, env)
    ensures var s' := Dispatch(s, req, env).0;
            Stored(s.policies, req.input.policy, s'.policies) && Core(s') == Core(s).(policies := s'.policies)
  {
    Handled(s, SetAppPolicy, req, env);
    SetExactly(s.policies, Some(req.input.policy), env.alloc(0));
  }

  /** SET_ROUTE likewise. */
  lemma SetRouteStores(s: State, req: Request, env: Env)
    requires Distinct(s.routes) && Succeeded(s, SetRoute, req, env)
    ensures var s' := Dispatch(s, req, env).0;
            Stored(s.routes, req.input.route, s'.routes) && Core(s') == Core(s).(routes := s'.routes)
  {
    Handled(s, SetRoute, req, env);
    SetExactly(s.routes, Some(req.input.route), env.alloc(0));
  }

  /** CLEAR_ROUTE removes the route of its key and nothing else; without one it reports NotFound. */
  lemma ClearRouteRemoves(s: State, req: Request, env: Env)
    requires Distinct(s.routes) && req.code == Code(ClearRoute) && Admit(req, env).Accept?
    ensures var (s', reply) := Dispatch(s, req, env);
            if Lookup(s.routes, req.input.key).Some? then
              && reply == Reply(Success, 0, Nothing)
              && Removed(s.routes, req.input.key, s'.routes) && Core(s') == Core(s).(routes := s'.routes)
            else reply == Reply(NotFound, 0, Nothing) && Core(s') == Core(s)
  {
    DecodeInverse(req.code, ClearRoute);
    RemoveExactly(s.routes, req.input.key);
  }

  /** A successful Sync stores what its payload stands for, described without the code, and nothing else. */
  lemma SyncStores(s: State, req: Request, env: Env)
    ensures var s' := Dispatch(s, req, env).0;
            && (Succeeded(s, SyncPolicies, req, env) ==>
                  IsSyncImage(s'.policies, req.input.policies) && Core(s') == Core(s).(policies := s'.policies))
            && (Succeeded(s, SyncRoutes, req, env) ==>
                  IsSyncImage(s'.routes, req.input.routes) && Core(s') == Core(s).(routes := s'.routes))
  {
    if Succeeded(s, SyncPolicies, req, env) {
      Handled(s, SyncPolicies, req, env);
      SyncReplaces(s, req, env);
      FoldCharacterised(Fold(req.input.policies), req.input.policies);
    }
    if Succeeded(s, SyncRoutes, req, env) {
      Handled(s, SyncRoutes, req, env);
      SyncReplaces(s, req, env);
      FoldCharacterised(Fold(req.input.routes), req.input.routes);
    }
  }

  // ----- the settings -----

  /** SET_KILL_SWITCH puts the requested mode and LUID in force, Restore being Off, and reports that mode. */
  lemma SetKillSwitchSets(s: State, req: Request, env: Env)
    requires Succeeded(s, SetKillSwitchMode, req, env)
    ensures var k := req.input.killSwitch;
            var mode := if k.mode == 3 then 0 else k.mode;
            k.version == 1 && k.mode <= 3
            && Core(Dispatch(s, req, env).0) ==
               Core(s).(ks := KillSwitch(mode, if k.mode == 3 then 0 else k.vpnLuid),
                        reported := s.reported.(killSwitchMode := mode))
  {
    Handled(s, SetKillSwitchMode, req, env);
    SetSwitchExactly(s.ks, Some(req.input.killSwitch));
  }

  /** IMPORT_STATE takes over the blob's generation and reported mode, and no other field of it. */
  lemma ImportTakes(s: State, req: Request, env: Env)
    requires Succeeded(s, ImportState, req, env)
    ensures var b := req.input.blob;
            b.version == 1
            && Core(Dispatch(s, req, env).0) ==
               Core(s).(mgr := Manager(b.generation, s.mgr.wfpCount, s.mgr.recoveryStatus),
                        reported := s.reported.(generation := b.generation, killSwitchMode := b.killSwitchMode))
  {
    Handled(s, ImportState, req, env);
  }

  /** DNS_SET_CONFIG stores the configuration, always observing only. */
  lemma DnsConfigStored(s: State, req: Request, env: Env)
    requires Succeeded(s, DnsSetConfig, req, env)
    ensures var c := req.input.dns;
            c.version == 1
            && Core(Dispatch(s, req, env).0) ==
               Core(s).(dns := Dns(DnsConfig(1, c.capabilities, c.enabled, true, c.excludedCount, c.excluded),
                                   s.dns.stats))
  {
    Handled(s, DnsSetConfig, req, env);
    SetDnsExactly(s.dns, Some(req.input.dns));
  }

  /** SET_GUARDIAN_MODE puts the mode in force, reports it, and polls for Ndis and on entry into Hybrid. */
  lemma ModeSet(s: State, req: Request, env: Env)
    requires Succeeded(s, SetGuardianMode, req, env)
    ensures var s', mode := Dispatch(s, req, env).0, req.input.mode;
            var polls := mode == 1 || (mode == 2 && !s.coord.active);
            && mode <= 2 && s'.coord.mode == s'.reported.mode == mode && (s'.coord.active <==> mode == 2)
            && s'.coord.ndisCount == (if polls && env.poll.status.Ok() then env.poll.count else s.coord.ndisCount)
            && s'.coord.pollGeneration == (if polls then Add32(s.coord.pollGeneration, 1) else s.coord.pollGeneration)
            && s'.reported.filterCount == (if mode == 0 then s.mgr.wfpCount
                                           else if mode == 1 then s'.coord.ndisCount
                                           else Add32(s.mgr.wfpCount, s'.coord.ndisCount))
            && Core(s') == Core(s).(coord := s'.coord,
                                    reported := s.reported.(mode := mode, filterCount := s'.reported.filterCount))
  {
    Handled(s, SetGuardianMode, req, env);
    SetModeExactly(s, req.input.mode, env.poll);
  }

  // ----- the reports -----

  /** Zero without samples, otherwise the integer quotient. */
  function Mean(sum: U64, samples: U64): int {
    if samples == 0 then 0 else sum / samples
  }

  /** What each reporting request has to answer, from the live state. */
  ghost predicate Reports(s: State, op: Op, out: Output) {
    match op
    case GetDriverState => out == DriverStateOut(s.reported)
    case GetTelemetry =>
      && out.TelemetryOut? && out.telemetry.counters == s.tel
      && out.telemetry.avgClassify == Mean(s.tel.classify.latencySum, s.tel.classify.latencySamples)
      && out.telemetry.maxClassify == s.tel.classify.maxLatency
    case ExportState =>
      && out.BlobOut? && out.blob.version == 1
      && out.blob.policyCount == |s.policies| && out.blob.routeCount == |s.routes|
      && out.blob.killSwitchMode == s.ks.mode && out.blob.generation == s.mgr.generation
    case ReconcileFilters =>
      && out.ReconcileOut? && out.response.removedOrphans == 0
      && out.response.generation == s.mgr.generation && out.response.status == s.mgr.recoveryStatus
    case GetPerfStats =>
      && out.PerfOut?
      && out.perf.dispatches == s.tel.ipc.dispatches && out.perf.rejects == s.tel.ipc.rejects
      && out.perf.avgIpc == Mean(s.tel.ipc.latencySum, s.tel.ipc.latencySamples)
      && out.perf.maxIpc == s.tel.ipc.maxLatency
      && out.perf.policyCount == |s.policies| && out.perf.routeCount == |s.routes|
    case GetDnsStats =>
      && out.DnsStatsOut? && out.stats.observed == s.dns.stats.observed
      && out.stats.skippedExcluded == s.dns.stats.skippedExcluded
      && out.stats.skippedDisabled == s.dns.stats.skippedDisabled
    case _ => out == Nothing
  }

  predicate Reporting(op: Op) {
    op in {GetDriverState, GetTelemetry, ExportState, ReconcileFilters, GetPerfStats, GetDnsStats}
  }

  /**
   A well-formed reporting request always succeeds, answers from the state before its own record,
   with as many bytes as its structure has, and changes nothing; other requests answer with nothing.
   */
  lemma ReportsAnswer(s: State, op: Op, req: Request, env: Env)
    requires req.code == Code(op) && BuffersFine(req, env) && WellFormed(op, req)
    ensures var (s', reply) := Dispatch(s, req, env);
            && (Reporting(op) ==> reply.status == Success && reply.bytes == OutputSize(op) && Core(s') == Core(s)
                                  && Reports(s, op, reply.output))
            && (!Reporting(op) ==> reply.bytes == 0 && reply.output == Nothing)
  {
    AdmittedExactly(req, env);
    DecodeInverse(req.code, op);
    HandlerReports(s, op, req.input, env);
  }

  lemma HandlerReports(s: State, op: Op, input: Input, env: Env)
    ensures var (s', reply) := Handle(s, op, input, env);
            if Reporting(op) then
              reply.status == Success && reply.bytes == OutputSize(op) && s' == s && Reports(s, op, reply.output)
            else reply.bytes == 0 && reply.output == Nothing
  {
    AverageExactly(s.tel.classify.latencySum, s.tel.classify.latencySamples);
    AverageExactly(s.tel.ipc.latencySum, s.tel.ipc.latencySamples);
  }
}

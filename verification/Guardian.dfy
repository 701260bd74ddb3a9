/**
 The driver itself: two heap tables and the global structures, changed in place by the methods
 below. Every method is proved to move the abstract state exactly as the model says, so what
 holds of every run of the model holds of every run of the methods.
 */
module Guardian {
  import opened Base
  import opened OrderedTable
  import opened LinkedTable
  import opened Policies
  import opened Decisions
  import opened Counters
  import opened DriverModel
  import opened Requests
  import opened Runs

  class Driver {
    const policies: Table<PolicyBody>
    const routes: Table<RouteBody>
    var ks: KillSwitch
    var dns: Dns
    var coord: Coordinator
    var mgr: Manager
    var callouts: Callouts
    var reported: Reported
    var tel: Telemetry

    ghost predicate Valid()
      reads policies, policies.head, policies.nodes, routes, routes.head, routes.nodes
    {
      policies.Valid() && routes.Valid()
    }

    ghost function View(): State
      reads this, policies`contents, routes`contents
    {
      State(policies.contents, routes.contents, ks, dns, coord, mgr, callouts, reported, tel)
    }

    constructor ()
      ensures Valid() && View() == Loaded()
      ensures fresh(policies) && fresh(policies.head) && policies.pool == {}
      ensures fresh(routes) && fresh(routes.head) && routes.pool == {}
    {
      policies := new Table<PolicyBody>();
      routes := new Table<RouteBody>();
      ks := KillSwitch(KS_OFF, 0);
      dns := ZeroDns();
      coord := Coordinator(MODE_WFP, 0, 0, false);
      mgr := Manager(0, 0, RECOVERY_OK);
      callouts := Callouts(false, 0);
      reported := Reported(Stopped, 0, 0, 0, 0, Success, MODE_WFP);
      tel := ZERO_TELEMETRY;
    }

    // ----- kill switch and classification -----

    method KillSwitchSet(arg: Option<KillSwitchConfig>) returns (status: NtStatus)
      modifies this`ks
      ensures (ks, status) == SetKillSwitch(old(ks), arg)
    {
      if arg.None? || arg.value.version != KS_VERSION {
        return InvalidParameter;
      }
      if arg.value.mode > KS_RESTORE {
        return InvalidParameter;
      }
      if arg.value.mode == KS_RESTORE {
        ks := ks.(mode := KS_OFF);
        ks := ks.(vpnLuid := 0);
      } else {
        ks := ks.(mode := arg.value.mode);
        ks := ks.(vpnLuid := arg.value.vpnLuid);
      }
      status := Success;
    }

    method KillSwitchEvaluate(luid: U64) returns (handled: bool, action: Action)
      ensures EvaluateKillSwitch(ks, luid) == if handled then Some(action) else None
    {
      handled, action := false, Permit;
      if ks.mode == KS_BLOCK_ALL {
        handled, action := true, Block;
      } else if ks.mode == KS_ALLOW_VPN_ONLY {
        if ks.vpnLuid != 0 && luid == ks.vpnLuid {
          action := Permit;
        } else {
          action := Block;
        }
        handled := true;
      }
    }

    method TelemetryRecordClassify(action: Action, latency: U64)
      modifies this`tel
      ensures tel == old(tel).(classify := RecordClassify(old(tel).classify, action, latency))
    {
      var c := tel.classify;
      c := c.(total := Bump(c.total));
      match action {
        case Block => c := c.(blocked := Bump(c.blocked));
        case Steer => c := c.(steered := Bump(c.steered));
        case Observe => c := c.(observed := Bump(c.observed));
        case Permit => c := c.(permitted := Bump(c.permitted));
      }
      if c.latencySamples % SAMPLE_PERIOD == 0 {
        c := c.(latencySum := Add64(c.latencySum, latency));
        c := c.(latencySamples := Bump(c.latencySamples));
        if latency > c.maxLatency {
          c := c.(maxLatency := latency);
        }
      }
      tel := tel.(classify := c);
    }

    method PerfRecordIpc(rejected: bool, latency: U64)
      modifies this`tel
      ensures tel == old(tel).(ipc := RecordIpc(old(tel).ipc, rejected, latency))
    {
      var c := tel.ipc;
      c := c.(dispatches := Bump(c.dispatches));
      if rejected {
        c := c.(rejects := Bump(c.rejects));
      }
      c := c.(latencySum := Add64(c.latencySum, latency));
      c := c.(latencySamples := Bump(c.latencySamples));
      if latency > c.maxLatency {
        c := c.(maxLatency := latency);
      }
      tel := tel.(ipc := c);
    }

    /** Kill switch, policy and route in turn, each overriding the action and LUID found so far. */
    method ClassifyUnrecorded(conn: Option<Connection>) returns (status: NtStatus, result: Verdict)
      requires Valid()
      ensures DecisionIn(View(), conn) == if status.Ok() then Decided(result) else Failed(status)
    {
      var action: Action := Permit;
      result := Verdict(Permit, 0);
      var handled, ksAction := KillSwitchEvaluate(0);
      if handled {
        result := result.(action := ksAction);
        return Success, result;
      }
      var policy;
      status, policy := LookupPolicy(policies, conn);
      if !status.Ok() {
        return;
      }
      var route: Option<Route> := None;
      if policy.Some? {
        if policy.value.body.action == POLICY_BLOCK {
          action := Block;
        } else if policy.value.body.action == POLICY_ROUTE {
          action := Steer;
          result := result.(luid := policy.value.body.luid);
        } else if policy.value.body.action == POLICY_OBSERVE {
          action := Observe;
        } else {
          action := Permit;
        }
        route := routes.LookupByKey(policy.value.key);
      }
      if route.Some? {
        var kind := route.value.body.kind;
        if kind == ROUTE_BLOCKED {
          action := Block;
        } else if kind == ROUTE_VPN || kind == ROUTE_TAILNET {
          action := Steer;
          result := result.(luid := route.value.body.luid);
        } else if kind == ROUTE_TOR || kind == ROUTE_PROXY || kind == ROUTE_ANONYMOUS || kind == ROUTE_CHAIN {
          action := Permit;
        }
      }
      result := result.(action := action);
      status := Success;
    }

    /** One classification and its telemetry record. */
    method ClassifyConnection(conn: Option<Connection>, latency: U64) returns (status: NtStatus, result: Verdict)
      requires Valid()
      modifies this`tel
      ensures Valid() && View() == Classify(old(View()), conn, latency).0
      ensures Classify(old(View()), conn, latency).1 == if status.Ok() then Decided(result) else Failed(status)
    {
      status, result := ClassifyUnrecorded(conn);
      if status.Ok() {
        TelemetryRecordClassify(result.action, latency);
      } else {
        tel := tel.(errors := Bump(tel.errors));
      }
    }

    /**
     The connection callouts of both layers. The write right is taken away before it is tested,
     so no verdict ever absorbs.
     */
    method AuthConnect(conn: Option<Connection>, latency: U64, classifyOut: ClassifyOut) returns (out: ClassifyOut)
      requires Valid()
      modifies this`tel
      ensures Valid() && View() == Step(old(View()), Connect(conn, latency, classifyOut)).0
      ensures out == Step(old(View()), Connect(conn, latency, classifyOut)).1.out
      ensures out.action == (if DecisionIn(old(View()), conn).Decided?
                                && DecisionIn(old(View()), conn).verdict.action == Block then ActionBlock
                             else ActionPermit)
      ensures !out.writeRight && out.absorb == classifyOut.absorb
    {
      out := classifyOut.(action := ActionNone, writeRight := false);
      var status, result := ClassifyConnection(conn, latency);
      if !status.Ok() {
        out := ClassifyPermit(out);
        return;
      }
      if result.action == Block {
        out := ClassifyBlock(out);
      } else {
        out := ClassifyPermit(out);
      }
    }

    function ClassifyPermit(out: ClassifyOut): ClassifyOut {
      out.(action := ActionPermit, absorb := out.absorb || out.writeRight)
    }

    function ClassifyBlock(out: ClassifyOut): ClassifyOut {
      out.(action := ActionBlock, absorb := out.absorb || out.writeRight)
    }

    // ----- DNS -----

    method DnsLayerSetConfig(arg: Option<DnsConfig>) returns (status: NtStatus)
      modifies this`dns
      ensures (dns, status) == SetDnsConfig(old(dns), arg)
    {
      if arg.None? || arg.value.version != DNS_VERSION {
        return InvalidParameter;
      }
      dns := dns.(config := arg.value);
      dns := dns.(config := dns.config.(observeOnly := true));
      status := Success;
    }

    method DnsShouldObserve(port: U16, pid: U32) returns (observe: bool)
      modifies this`dns, this`tel
      ensures (View(), observe) == QueryDns(old(View()), port, pid)
    {
      if port != DNS_PORT {
        return false;
      }
      if !dns.config.enabled {
        dns := dns.(stats := dns.stats.(skippedDisabled := Bump(dns.stats.skippedDisabled)));
        return false;
      }
      var i := 0;
      while i < dns.config.excludedCount && i < 16
        invariant 0 <= i <= 16
        invariant forall j :: 0 <= j < i ==> dns.config.excluded[j] != pid
        invariant dns == old(dns) && tel == old(tel)
      {
        if dns.config.excluded[i] == pid {
          dns := dns.(stats := dns.stats.(skippedExcluded := Bump(dns.stats.skippedExcluded)));
          return false;
        }
        i := i + 1;
      }
      dns := dns.(stats := dns.stats.(observed := Bump(dns.stats.observed)));
      tel := tel.(dnsObserved := Bump(tel.dnsObserved));
      observe := true;
    }

    // ----- mode coordinator -----

    function CombinedFilterCount(): U32
      reads this
    {
      if coord.mode == MODE_HYBRID then Add32(mgr.wfpCount, coord.ndisCount)
      else if coord.mode == MODE_NDIS then coord.ndisCount
      else mgr.wfpCount
    }

    method PollNdisState(poll: Poll) returns (status: NtStatus)
      modifies this`coord, this`reported
      ensures (View(), status) == PollNdis(old(View()), poll)
    {
      status := poll.status;
      if status.Ok() {
        coord := coord.(ndisCount := poll.count);
      }
      coord := coord.(pollGeneration := Add32(coord.pollGeneration, 1));
      reported := reported.(filterCount := CombinedFilterCount());
    }

    method SetNdisFilterCount(count: U32)
      modifies this`coord, this`reported
      ensures View() == SetNdisCount(old(View()), count)
    {
      coord := coord.(ndisCount := count);
      reported := reported.(filterCount := CombinedFilterCount());
    }

    method CoordinatorInitialize(poll: Poll) returns (status: NtStatus)
      modifies this`coord, this`reported
      ensures status == Success
      ensures View() == PollNdis(old(View()).(coord := old(coord).(active := true)), poll).0
    {
      coord := coord.(active := true);
      var ignored := PollNdisState(poll);
      reported := reported.(filterCount := CombinedFilterCount());
      status := Success;
    }

    method CoordinatorShutdown()
      modifies this`coord
      ensures coord == old(coord).(active := false)
    {
      if !coord.active {
        return;
      }
      coord := coord.(active := false);
    }

    method HybridSetMode(mode: U32, poll: Poll) returns (status: NtStatus)
      modifies this`coord, this`reported
      ensures (View(), status) == SetMode(old(View()), mode, poll)
    {
      if mode > MODE_HYBRID {
        return InvalidParameter;
      }
      if coord.active && mode != MODE_HYBRID {
        CoordinatorShutdown();
      }
      coord := coord.(mode := mode);
      reported := reported.(mode := mode);
      if mode == MODE_HYBRID && !coord.active {
        status := CoordinatorInitialize(poll);
        return;
      }
      if mode == MODE_NDIS {
        var ignored := PollNdisState(poll);
      }
      reported := reported.(filterCount := CombinedFilterCount());
      status := Success;
    }

    // ----- state manager, recovery, callouts -----

    method StateImport(arg: Option<StateBlob>) returns (status: NtStatus)
      modifies this`mgr, this`reported
      ensures (View(), status) == Import(old(View()), arg)
    {
      if arg.None? || arg.value.version != BLOB_VERSION {
        return InvalidParameter;
      }
      mgr := mgr.(generation := arg.value.generation);
      reported := reported.(generation := mgr.generation);
      reported := reported.(killSwitchMode := arg.value.killSwitchMode);
      status := Success;
    }

    method RecoveryBegin()
      modifies this`mgr, this`reported
      ensures View() == BeginRecovery(old(View()))
    {
      var generation := Add32(mgr.generation, 1);
      mgr := mgr.(generation := generation);
      reported := reported.(generation := generation);
      mgr := mgr.(recoveryStatus := RECOVERY_OK);
    }

    method RegisterOne(status: NtStatus) returns (ok: bool)
      modifies this`callouts
      ensures ok == status.Ok() && callouts == RegisterStep(old(callouts), status)
    {
      ok := status.Ok();
      if ok {
        callouts := callouts.(count := Add32(callouts.count, 1));
      }
    }

    method CalloutsRegister(env: RegisterEnv) returns (status: NtStatus)
      modifies this`callouts, this`dns
      ensures (View(), status) == Register(old(View()), env)
    {
      if callouts.registered {
        return Success;
      }
      dns := InitialDns();
      if !env.device {
        return DeviceNotReady;
      }
      var ok := RegisterOne(env.authV4);
      if !ok { return env.authV4; }
      ok := RegisterOne(env.authV6);
      if !ok { return env.authV6; }
      ok := RegisterOne(env.flowV4);
      if !ok { return env.flowV4; }
      ok := RegisterOne(env.flowV6);
      if !ok { return env.flowV6; }
      callouts := callouts.(registered := true);
      status := Success;
    }

    method CalloutsUnregister()
      modifies this`callouts
      ensures View() == Unregister(old(View()))
    {
      if !callouts.registered {
        return;
      }
      callouts := callouts.(registered := false);
      callouts := callouts.(count := 0);
    }

    // ----- lifecycle -----

    method Fail(status: NtStatus)
      modifies this`reported
      ensures (View(), status) == FailEntry(old(View()), status)
    {
      reported := reported.(lastError := status);
      reported := reported.(lifecycle := LifecycleFailed);
    }

    method InitializeTables()
      requires Valid() && policies.contents == [] && routes.contents == []
      modifies policies, policies.head, routes, routes.head
      ensures Valid() && policies.contents == [] && routes.contents == []
      ensures policies.pool == {} && routes.pool == {}
    {
      policies.Initialize();
      routes.Initialize();
    }

    method InitializeSubsystems(env: EntryEnv)
      requires Valid() && policies.contents == [] && routes.contents == []
      modifies this`ks, this`mgr, this`reported, this`tel, policies, policies.head, routes, routes.head
      ensures Valid() && View() == Initialized(old(View()), env)
      ensures policies.pool == {} && routes.pool == {}
    {
      reported := Reported(Starting, 0, 0, 0, 0, Success, MODE_WFP);
      reported := reported.(mode := RegistryMode(env.registryMode));
      tel := ZERO_TELEMETRY;
      InitializeTables();
      mgr := Manager(0, 0, mgr.recoveryStatus);
      ks := KillSwitch(KS_OFF, 0);
      ks := ks.(mode := RegistryKillSwitch(env.registryKillSwitch));
      mgr := mgr.(recoveryStatus := RECOVERY_OK);
    }

    /** Start-up of a freshly loaded image, whose tables are empty. */
    method DriverEntry(env: EntryEnv) returns (status: NtStatus)
      requires Valid() && policies.contents == [] && routes.contents == []
      modifies this, policies, policies.head, routes, routes.head
      ensures Valid() && (View(), status) == Enter(old(View()), env)
      ensures policies.pool == {} && routes.pool == {}
    {
      InitializeSubsystems(env);
      status := env.driverCreate;
      if !status.Ok() {
        Fail(status);
        return;
      }
      status := env.deviceCreate;
      if !status.Ok() {
        Fail(status);
        return;
      }
      status := CalloutsRegister(env.register);
      if !status.Ok() {
        Fail(status);
        return;
      }
      reported := reported.(calloutsRegistered := callouts.count);
      reported := reported.(lifecycle := Recovering);
      status := HybridSetMode(reported.mode, env.poll);
      assert status.Ok();  // the registry mode was checked when it was read
      RecoveryBegin();
      reported := reported.(lifecycle := Running);
      reported := reported.(lastError := Success);
      status := Success;
    }

    /** Unload gives every table entry back to the pool. */
    method DriverUnload()
      requires Valid()
      modifies this, policies, policies.head, policies.pool, routes, routes.head, routes.pool
      ensures Valid() && View() == Unload(old(View()))
      ensures policies.pool == {} && routes.pool == {}
    {
      reported := reported.(lifecycle := Stopped);
      CoordinatorShutdown();
      CalloutsUnregister();
      ShutdownTables();
    }

    method ShutdownTables()
      requires Valid()
      modifies policies, policies.head, policies.pool, routes, routes.head, routes.pool
      ensures Valid() && policies.pool == {} && routes.pool == {}
      ensures policies.contents == [] && routes.contents == []
    {
      routes.Shutdown();
      assert policies.Valid();
      policies.Shutdown();
      assert routes.Valid();
    }

    // ----- requests -----

    method RemovePolicyEntry(key: AppId) returns (status: NtStatus)
      requires Valid()
      modifies policies, policies.head, policies.pool
      ensures Valid() && View() == Step(old(View()), RemovePolicy(key)).0
      ensures Returned(status) == Step(old(View()), RemovePolicy(key)).1
      ensures policies.pool <= old(policies.pool)
    {
      status := policies.Remove(key);
    }

    /** The requests that change the policy table. */
    method PolicyRequest(op: Op, input: Input, env: Env) returns (status: NtStatus)
      requires Valid() && op in {SetAppPolicy, SyncPolicies}
      modifies policies, policies.head, policies.pool
      ensures Valid() && (View(), Status(status)) == Handle(old(View()), op, input, env)
      ensures fresh(policies.pool - old(policies.pool))
    {
      if op == SetAppPolicy {
        status := policies.Set(Some(input.policy), env.alloc(0));
      } else {
        status := policies.Sync(Some(input.policies), MAX_SYNC_POLICIES, env.alloc);
      }
    }

    /** The requests that change the route table. */
    method RouteRequest(op: Op, input: Input, env: Env) returns (status: NtStatus)
      requires Valid() && op in {SetRoute, ClearRoute, SyncRoutes}
      modifies routes, routes.head, routes.pool
      ensures Valid() && (View(), Status(status)) == Handle(old(View()), op, input, env)
      ensures fresh(routes.pool - old(routes.pool))
    {
      if op == SetRoute {
        status := routes.Set(Some(input.route), env.alloc(0));
      } else if op == ClearRoute {
        status := routes.Remove(input.key);
      } else {
        status := routes.Sync(Some(input.routes), MAX_SYNC_ROUTES, env.alloc);
      }
    }

    /** The requests that change a setting. */
    method SettingRequest(op: Op, input: Input, env: Env) returns (status: NtStatus)
      requires op in {SetKillSwitchMode, ImportState, DnsSetConfig, SetGuardianMode}
      modifies this`ks, this`dns, this`coord, this`mgr, this`reported
      ensures (View(), Status(status)) == Handle(old(View()), op, input, env)
    {
      match op {
        case SetKillSwitchMode =>
          status := KillSwitchSet(Some(input.killSwitch));
          if status.Ok() {
            reported := reported.(killSwitchMode := ks.mode);
          }
        case ImportState =>
          status := StateImport(Some(input.blob));
        case DnsSetConfig =>
          status := DnsLayerSetConfig(Some(input.dns));
        case SetGuardianMode =>
          status := HybridSetMode(input.mode, env.poll);
      }
    }

    /** The requests that only report. */
    method ReportRequest(op: Op, input: Input, env: Env) returns (reply: Reply)
      requires Valid() && op in {GetDriverState, GetTelemetry, ExportState, ReconcileFilters, GetPerfStats, GetDnsStats}
      ensures (View(), reply) == Handle(View(), op, input, env)
    {
      match op {
        case GetDriverState =>
          reply := Reply(Success, DRIVER_STATE_SIZE, DriverStateOut(reported));
        case GetTelemetry =>
          reply := Reply(Success, TELEMETRY_SIZE, TelemetryOut(TelemetryReportOf(tel)));
        case ExportState =>
          var blob := StateBlob(BLOB_VERSION, policies.count, routes.count, ks.mode, mgr.generation);
          reply := Reply(Success, BLOB_SIZE, BlobOut(blob));
        case ReconcileFilters =>
          var response := ReconcileResponse(0, mgr.generation, mgr.recoveryStatus);
          reply := Reply(Success, RECONCILE_RESPONSE_SIZE, ReconcileOut(response));
        case GetPerfStats =>
          var stats :=
            PerfReport(tel.ipc.dispatches, tel.ipc.rejects, 0, tel.ipc.maxLatency, policies.count, routes.count);
          if tel.ipc.latencySamples > 0 {
            stats := stats.(avgIpc := Quotient(tel.ipc.latencySum, tel.ipc.latencySamples));
          }
          reply := Reply(Success, PERF_STATS_SIZE, PerfOut(stats));
        case GetDnsStats =>
          reply := Reply(Success, DNS_STATS_SIZE, DnsStatsOut(dns.stats));
      }
    }

    method HandleRequest(op: Op, input: Input, env: Env) returns (reply: Reply)
      requires Valid()
      modifies this, policies, policies.head, policies.pool, routes, routes.head, routes.pool
      ensures Valid() && (View(), reply) == Handle(old(View()), op, input, env)
      ensures fresh(policies.pool - old(policies.pool))
      ensures fresh(routes.pool - old(routes.pool))
    {
      if op in {SetAppPolicy, SyncPolicies} {
        var status := PolicyRequest(op, input, env);
        reply := Status(status);
      } else if op in {SetRoute, ClearRoute, SyncRoutes} {
        var status := RouteRequest(op, input, env);
        reply := Status(status);
      } else if op in {SetKillSwitchMode, ImportState, DnsSetConfig, SetGuardianMode} {
        var status := SettingRequest(op, input, env);
        reply := Status(status);
      } else {
        reply := ReportRequest(op, input, env);
      }
    }

    /** One request: caller check, buffer retrieval, validation, handler, IPC record. */
    method DeviceControl(req: Request, env: Env) returns (reply: Reply)
      requires Valid()
      modifies this, policies, policies.head, policies.pool, routes, routes.head, routes.pool
      ensures Valid() && (View(), reply) == Dispatch(old(View()), req, env)
      ensures fresh(policies.pool - old(policies.pool))
      ensures fresh(routes.pool - old(routes.pool))
    {
      reply := Reply(env.caller, 0, Nothing);
      if reply.status.Ok() && 0 < req.inLength {
        reply := Reply(env.inBuffer, 0, Nothing);
      }
      if reply.status.Ok() && 0 < req.outLength {
        reply := Reply(env.outBuffer, 0, Nothing);
      }
      if reply.status.Ok() {
        var v := Validate(req.code, req.inLength, req.outLength, 0 < req.inLength, req.input);
        if v.Reject? {
          reply := Reply(v.status, 0, Nothing);
        } else if v.required > req.outLength {
          reply := Reply(BufferTooSmall, 0, Nothing);
        } else {
          var op := Decode(req.code);
          if op.None? {
            reply := Reply(InvalidDeviceRequest, 0, Nothing);
          } else {
            reply := HandleRequest(op.value, req.input, env);
          }
        }
      }
      PerfRecordIpc(!reply.status.Ok(), env.latency);
    }

    // ----- the system as client -----

    /** One event of the environment, answered by the method it reaches. */
    method Perform(e: Event) returns (r: Response)
      requires Valid()
      modifies this, policies, policies.head, policies.pool, routes, routes.head, routes.pool
      ensures Valid() && View() == Step(old(View()), e).0
      ensures r == Step(old(View()), e).1
      ensures fresh(policies.pool - old(policies.pool))
      ensures fresh(routes.pool - old(routes.pool))
    {
      match e {
        case Ioctl(req, env) =>
          var reply := DeviceControl(req, env);
          r := Replied(reply);
        case Connect(conn, latency, classifyOut) =>
          var out := AuthConnect(conn, latency, classifyOut);
          r := Classified(out);
        case DnsQuery(port, pid) =>
          var observe := DnsShouldObserve(port, pid);
          r := Observed(observe);
        case RemovePolicy(key) =>
          var status := RemovePolicyEntry(key);
          r := Returned(status);
        case PollEvent(poll) =>
          var status := PollNdisState(poll);
          r := Returned(status);
        case SetNdisEvent(count) =>
          SetNdisFilterCount(count);
          r := Returned(Success);
      }
    }

    /** A whole run: the methods go through the states of the model and give its responses. */
    method PerformAll(es: seq<Event>) returns (rs: seq<Response>)
      requires Valid()
      modifies this, policies, policies.head, policies.pool, routes, routes.head, routes.pool
      ensures Valid() && View() == Run(old(View()), es)
      ensures |rs| == |es| && forall i :: 0 <= i < |es| ==> rs[i] == ResponseAt(old(View()), es, i)
      ensures fresh(policies.pool - old(policies.pool)) && fresh(routes.pool - old(routes.pool))
    {
      if es == [] {
        return [];
      }
      ghost var s := View();
      var p := es[..|es| - 1];
      rs := PerformAll(p);
      var r := Perform(es[|es| - 1]);
      ResponsesAppend(s, es, rs, r);
      rs := rs + [r];
    }
  }

  // ----- from load to unload -----

  /** A kill-switch request that was answered with success. */
  predicate KillSwitchAnswered(e: Event, r: Response) {
    IsKillSwitchRequest(e) && r.Replied? && r.reply.status.Ok()
  }

  /** After an answered request for an engaged mode every connection is blocked until the next answered one. */
  ghost predicate BlocksWhileEngaged(es: seq<Event>, rs: seq<Response>)
    requires |rs| == |es|
  {
    forall i, j ::
      && 0 <= i < j < |es| && es[j].Connect? && KillSwitchAnswered(es[i], rs[i])
      && es[i].req.input.killSwitch.mode in {KS_BLOCK_ALL, KS_ALLOW_VPN_ONLY}
      && (forall k :: i < k < j ==> !KillSwitchAnswered(es[k], rs[k]))
      ==> rs[j].Classified? && rs[j].out.action == ActionBlock
  }

  lemma BlocksInRun(s: State, es: seq<Event>, rs: seq<Response>)
    requires |rs| == |es| && forall i :: 0 <= i < |es| ==> rs[i] == ResponseAt(s, es, i)
    ensures BlocksWhileEngaged(es, rs)
  {
    forall i, j |
      && 0 <= i < j < |es| && es[j].Connect? && KillSwitchAnswered(es[i], rs[i])
      && es[i].req.input.killSwitch.mode in {KS_BLOCK_ALL, KS_ALLOW_VPN_ONLY}
      && (forall k :: i < k < j ==> !KillSwitchAnswered(es[k], rs[k]))
      ensures rs[j].Classified? && rs[j].out.action == ActionBlock
    {
      assert forall k :: 0 <= k < |es| ==> (KillSwitchSetAt(s, es, k) <==> KillSwitchAnswered(es[k], rs[k]));
      KillSwitchBlocks(s, es, i, j);
    }
  }

  /** The DNS statistics after the events account for their port-53 queries. */
  ghost predicate DnsReport(es: seq<Event>, tel: Telemetry, dns: DnsStats) {
    && Low64(EventCount(es, IsDnsQuery)) == Add64(Add64(dns.skippedDisabled, dns.skippedExcluded), dns.observed)
    && dns.observed == tel.dnsObserved
  }

  lemma DnsReportOfRun(env: EntryEnv, es: seq<Event>)
    requires Enter(Loaded(), env).1.Ok()
    ensures var s := Run(Enter(Loaded(), env).0, es); DnsReport(es, s.tel, s.dns.stats)
  {
    DnsOfRun(env, es);
    var s0 := Enter(Loaded(), env).0;
    DnsReportByCounts(es, Run(s0, es), DnsCount(s0, es, ToObserve), DnsCount(s0, es, ExcludedPid),
                      DnsCount(s0, es, Disabled));
  }

  lemma DnsReportByCounts(es: seq<Event>, s: State, observed: nat, excluded: nat, disabled: nat)
    requires s.dns.stats == DnsStats(Low64(observed), Low64(excluded), Low64(disabled))
    requires observed + excluded + disabled == EventCount(es, IsDnsQuery) && s.dns.stats.observed == s.tel.dnsObserved
    ensures DnsReport(es, s.tel, s.dns.stats)
  {
    ThreeInWords(disabled, excluded, observed);
  }

  lemma ThreeInWords(a: nat, b: nat, c: nat)
    ensures Low64(a + b + c) == Add64(Add64(Low64(a), Low64(b)), Low64(c))
  {
    Low64Sum(a, b);
    Low64Sum(a + b, c);
  }

  /** The request counters after the events account for their requests. */
  ghost predicate RequestReport(es: seq<Event>, ipc: IpcCounters) {
    var n := EventCount(es, IsRequest);
    && ipc.dispatches == Low64(n)
    && (AverageSound(n) ==> Average(ipc.latencySum, ipc.latencySamples) <= ipc.maxLatency)
    && (RejectsSound(n) ==> ipc.rejects <= ipc.dispatches)
  }

  lemma RequestReportOfRun(env: EntryEnv, es: seq<Event>)
    requires Enter(Loaded(), env).1.Ok()
    ensures RequestReport(es, Run(Enter(Loaded(), env).0, es).tel.ipc)
  {
    var s0 := Enter(Loaded(), env).0;
    ReportsOfRun(env, es);
    EntryEstablishes(env);
    IpcOfRun(s0, es);
    ConnectionsAccounted(s0, es);
    IpcWords(IpcHistory(s0, es));
  }

  /**
   A driver from load to unload. Start-up fails exactly when the model says; otherwise every event
   is answered, engaged modes block, the counters left by the run account for its events, and
   unloading gives back every entry and leaves nothing registered.
   */
  method Lifetime(env: EntryEnv, es: seq<Event>)
    returns (d: Driver, status: NtStatus, rs: seq<Response>, tel: Telemetry, dns: DnsStats)
    ensures fresh(d) && d.Valid() && status == Enter(Loaded(), env).1
    ensures !status.Ok() ==> d.reported.lifecycle == LifecycleFailed && d.reported.lastError == status
    ensures status.Ok() ==>
              |rs| == |es| && forall i :: 0 <= i < |es| ==> rs[i] == ResponseAt(Enter(Loaded(), env).0, es, i)
    ensures status.Ok() ==> BlocksWhileEngaged(es, rs) && DnsReport(es, tel, dns) && RequestReport(es, tel.ipc)
    ensures status.Ok() ==>
              && d.reported.lifecycle == Stopped && d.callouts == Callouts(false, 0) && !d.coord.active
              && d.policies.pool == {} && d.routes.pool == {}
  {
    d := new Driver();
    status := d.DriverEntry(env);
    rs, tel, dns := [], d.tel, d.dns.stats;
    EntryEstablishes(env);
    if status.Ok() {
      rs := d.PerformAll(es);
      tel, dns := d.tel, d.dns.stats;
      BlocksInRun(Enter(Loaded(), env).0, es, rs);
      DnsReportOfRun(env, es);
      RequestReportOfRun(env, es);
      UnloadAfterRun(env, es);
      d.DriverUnload();
    }
  }
}

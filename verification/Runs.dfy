/** Whole runs of the driver: every sequence of requests, classifications, DNS queries and polls. */
module Runs {
  import opened Base
  import opened OrderedTable
  import opened Policies
  import opened Decisions
  import opened Counters
  import opened DriverModel
  import opened Requests

  datatype Event =
    | Ioctl(req: Request, env: Env)
    | Connect(conn: Option<Connection>, latency: U64, out: ClassifyOut)
    | DnsQuery(port: U16, pid: U32)
    | RemovePolicy(key: AppId)
    | PollEvent(poll: Poll)
    | SetNdisEvent(count: U32)

  datatype Response =
    | Replied(reply: Reply)
    | Classified(out: ClassifyOut)
    | Observed(observe: bool)
    | Returned(status: NtStatus)

  ghost function Step(s: State, e: Event): (State, Response) {
    match e
    case Ioctl(req, env) => var (s', reply) := Dispatch(s, req, env); (s', Replied(reply))
    case Connect(conn, latency, out) =>
      var (s', o) := Classify(s, conn, latency);
      (s', Classified(CalloutVerdict(out, o)))
    case DnsQuery(port, pid) => var (s', b) := QueryDns(s, port, pid); (s', Observed(b))
    case RemovePolicy(key) =>
      var (t, status) := RemoveResult(s.policies, key);
      (s.(policies := t), Returned(status))
    case PollEvent(poll) => var (s', status) := PollNdis(s, poll); (s', Returned(status))
    case SetNdisEvent(count) => (SetNdisCount(s, count), Returned(Success))
  }

  ghost function Run(s: State, es: seq<Event>): State {
    if es == [] then s else Step(Run(s, es[..|es| - 1]), es[|es| - 1]).0
  }

  /** The response to the i-th event of a run. */
  ghost function ResponseAt(s: State, es: seq<Event>, i: nat): Response
    requires i < |es|
  {
    Step(Run(s, es[..i]), es[i]).1
  }

  lemma RunStep(s: State, es: seq<Event>, i: nat)
    requires i < |es|
    ensures Run(s, es[..i + 1]) == Step(Run(s, es[..i]), es[i]).0
  {
    assert es[..i + 1][..i] == es[..i];
  }

  lemma ResponsesExtend(s: State, es: seq<Event>)
    requires es != []
    ensures forall i :: 0 <= i < |es| - 1 ==> ResponseAt(s, es, i) == ResponseAt(s, es[..|es| - 1], i)
    ensures ResponseAt(s, es, |es| - 1) == Step(Run(s, es[..|es| - 1]), es[|es| - 1]).1
  {
    var p := es[..|es| - 1];
    forall i | 0 <= i < |p| ensures ResponseAt(s, es, i) == ResponseAt(s, p, i) {
      assert p[..i] == es[..i];
    }
  }

  lemma ResponsesAppend(s: State, es: seq<Event>, rs: seq<Response>, r: Response)
    requires es != [] && |rs| == |es| - 1
    requires forall i :: 0 <= i < |rs| ==> rs[i] == ResponseAt(s, es[..|es| - 1], i)
    requires r == Step(Run(s, es[..|es| - 1]), es[|es| - 1]).1
    ensures forall i :: 0 <= i < |es| ==> (rs + [r])[i] == ResponseAt(s, es, i)
  {
    ResponsesExtend(s, es);
  }

  // ----- what every reachable state satisfies -----

  /** Agreement of reported and real state, and the shape of tables, callouts and coordinator. */
  ghost predicate Inv(s: State) {
    && Sound(s.policies) && Sound(s.routes)
    && s.ks.mode <= KS_RESTORE
    && s.callouts == Callouts(true, CALLOUT_COUNT) && s.reported.calloutsRegistered == CALLOUT_COUNT
    && s.reported.lifecycle == Running && s.reported.lastError == Success
    && s.reported.mode == s.coord.mode <= MODE_HYBRID
    && (s.coord.active <==> s.coord.mode == MODE_HYBRID)
    && s.mgr.wfpCount == 0 && s.reported.filterCount == (if s.coord.mode == MODE_WFP then 0 else s.coord.ndisCount)
    && s.reported.generation == s.mgr.generation == Reconcile(s).generation == Export(s).generation
    && s.dns.config.observeOnly && s.dns.config.version == DNS_VERSION
  }

  /** Every foreign call of start-up whose status the driver checks succeeds. */
  predicate EntryInputsOk(env: EntryEnv) {
    && env.driverCreate.Ok() && env.deviceCreate.Ok() && env.register.device
    && env.register.authV4.Ok() && env.register.authV6.Ok() && env.register.flowV4.Ok() && env.register.flowV6.Ok()
  }

  /**
   DriverEntry succeeds exactly when driver, device and all four registrations do, whatever the
   registry and the poll answer; it then ends in Running and all of Inv holds; in particular all
   four callouts are registered and counted. On failure the reported generation
   still agrees and no more than four callouts are counted.
   */
  lemma EntryEstablishes(env: EntryEnv)
    ensures var (s, status) := Enter(Loaded(), env);
            && (status.Ok() <==> EntryInputsOk(env))
            && (status.Ok() <==> s.reported.lifecycle == Running)
            && (status.Ok() ==> Inv(s) && s.mgr.generation == 1 && s.tel == ZERO_TELEMETRY && s.dns == InitialDns())
            && (!status.Ok() ==> s.reported.lifecycle == LifecycleFailed && s.reported.lastError == status
                                 && s.reported.generation == s.mgr.generation == 0 && s.callouts.count <= CALLOUT_COUNT)
  {
    FreshRegistration(env.register);
  }

  lemma HandlerKeeps(s: State, op: Op, input: Input, env: Env)
    requires Inv(s)
    ensures Inv(Handle(s, op, input, env).0)
  {
    match op
    case SetAppPolicy => SetKeepsSound(s.policies, Some(input.policy), env.alloc(0));
    case SetRoute => SetKeepsSound(s.routes, Some(input.route), env.alloc(0));
    case ClearRoute => RemoveKeepsSound(s.routes, input.key);
    case SyncPolicies => SyncKeepsSound(s.policies, Some(input.policies), MAX_SYNC_POLICIES, env.alloc);
    case SyncRoutes => SyncKeepsSound(s.routes, Some(input.routes), MAX_SYNC_ROUTES, env.alloc);
    case _ =>
  }

  lemma StepKeeps(s: State, e: Event)
    requires Inv(s)
    ensures Inv(Step(s, e).0)
  {
    match e
    case Ioctl(req, env) =>
      if Decode(req.code).Some? { HandlerKeeps(s, Decode(req.code).value, req.input, env); }
    case RemovePolicy(key) => RemoveKeepsSound(s.policies, key);
    case _ =>
  }

  lemma {:induction false} RunKeeps(s: State, es: seq<Event>)
    requires Inv(s)
    ensures Inv(Run(s, es))
  {
    if es != [] {
      RunKeeps(s, es[..|es| - 1]);
      StepKeeps(Run(s, es[..|es| - 1]), es[|es| - 1]);
    }
  }

  // ----- start-up and unload from their inputs -----

  /** The status of start-up: of the first foreign call that failed, or success. */
  lemma EntryStatus(env: EntryEnv)
    ensures var status := Enter(Loaded(), env).1;
            var r := env.register;
            status == if !env.driverCreate.Ok() then env.driverCreate
                      else if !env.deviceCreate.Ok() then env.deviceCreate
                      else if !r.device then DeviceNotReady
                      else if !r.authV4.Ok() then r.authV4
                      else if !r.authV6.Ok() then r.authV6
                      else if !r.flowV4.Ok() then r.flowV4
                      else if !r.flowV6.Ok() then r.flowV6
                      else Success
  {
  }

  /**
   What a successful start-up has configured: the registry's valid kill-switch mode is enforced,
   with no VPN, and its valid filtering mode is set; anything else counts as Off and Wfp. The
   tables are empty, nothing is reported of the kill switch, and Ndis and Hybrid have polled once.
   */
  lemma EntryConfigures(env: EntryEnv)
    requires EntryInputsOk(env)
    ensures var s, ks, mode := Enter(Loaded(), env).0, env.registryKillSwitch, env.registryMode;
            && s.policies == [] && s.routes == []
            && s.ks == KillSwitch(if ks.Some? && ks.value in {0, 1, 2, 3} then ks.value else 0, 0)
            && s.coord.mode == (if mode.Some? && mode.value in {0, 1, 2} then mode.value else 0)
            && s.coord.pollGeneration == (if s.coord.mode == 0 then 0 else 1)
            && s.coord.ndisCount == (if s.coord.mode != 0 && env.poll.status.Ok() then env.poll.count else 0)
            && s.reported.killSwitchMode == 0
            && !s.dns.config.enabled && s.dns.config.observeOnly && s.dns.config.excludedCount == 0
            && s.dns.config.version == s.dns.config.capabilities == 1
            && s.dns.stats == DnsStats(0, 0, 0)
  {
    EntryEstablishes(env);
  }

  /** A start-up that fails leaves no table entry and no coordinator, and reports its status and nothing else. */
  lemma EntryFails(env: EntryEnv)
    requires !EntryInputsOk(env)
    ensures var (s, status) := Enter(Loaded(), env);
            && !status.Ok() && s.policies == [] && s.routes == []
            && s.coord == Coordinator(0, 0, 0, false) && s.mgr == Manager(0, 0, 0) && !s.callouts.registered
            && s.reported == Reported(LifecycleFailed, 0, 0, 0, 0, status, s.reported.mode)
  {
    EntryEstablishes(env);
  }

  /** Unload changes what it takes down and nothing else. */
  lemma UnloadExactly(s: State)
    ensures Unload(s) ==
            s.(policies := [], routes := [], reported := s.reported.(lifecycle := Stopped),
               coord := s.coord.(active := false),
               callouts := if s.callouts.registered then Callouts(false, 0) else s.callouts)
  {
  }

  // ----- the events from their inputs -----

  /**
   What a connection callout of any run answers: a block exactly if the kill switch is engaged, or
   the connection's first matching policy has a Blocked route, or is Block with a neutral route;
   a permit otherwise, failed lookups included; no write right, and ABSORB as it came in.
   */
  lemma CalloutOfRun(s: State, es: seq<Event>, i: nat)
    requires i < |es| && es[i].Connect?
    ensures var z, conn, r := Run(s, es[..i]), es[i].conn, ResponseAt(s, es, i);
            && r.Classified? && !r.out.writeRight && r.out.absorb == es[i].out.absorb
            && (r.out.action == if DecisionIn(z, conn).Decided? && DecisionIn(z, conn).verdict.action == Block
                                then ActionBlock else ActionPermit)
            && (r.out.action == ActionBlock <==>
                  z.ks.mode in {1, 2} || (conn.Some? && BlockedByTables(z.policies, z.routes, conn.value)))
  {
    var z := Run(s, es[..i]);
    CalloutExactly(es[i].out, DecisionIn(z, es[i].conn));
    EngagedBlocksAll(z.ks, z.policies, z.routes, es[i].conn);
    if es[i].conn.Some? { BlockedByFirstMatch(z, es[i].conn.value); }
  }

  /** The policy and route of a connection block it. */
  predicate BlockedByTables(policies: seq<Policy>, routes: seq<Route>, c: Connection) {
    match FirstMatch(policies, c)
    case None => false
    case Some(p) =>
      var route := Lookup(routes, p.key);
      (route.Some? && route.value.body.kind == 5) || (p.body.action == 1 && Neutral(route))
  }

  lemma BlockedByFirstMatch(z: State, c: Connection)
    ensures !Engaged(z.ks) ==>
              var d := DecisionIn(z, Some(c));
              d.Decided? && (d.verdict.action == Block <==> BlockedByTables(z.policies, z.routes, c))
  {
  }

  /** A connection changes the telemetry alone. */
  lemma ConnectChanges(s: State, e: Event)
    requires e.Connect?
    ensures Core(Step(s, e).0) == Core(s)
  {
  }

  /** A query is answered and counted as its port, its process and the configuration say, and changes nothing else. */
  lemma QueryOfRun(s: State, es: seq<Event>, i: nat)
    requires i < |es| && es[i].DnsQuery?
    ensures var z, z', r := Run(s, es[..i]), Run(s, es[..i + 1]), ResponseAt(s, es, i);
            var c, st, st', hit := z.dns.config, z.dns.stats, z'.dns.stats, es[i].port == 53;
            && r == Observed(hit && c.enabled && !InUseSlot(c, es[i].pid))
            && st'.skippedDisabled == (if hit && !c.enabled then Add64(st.skippedDisabled, 1) else st.skippedDisabled)
            && st'.skippedExcluded == (if hit && c.enabled && InUseSlot(c, es[i].pid) then Add64(st.skippedExcluded, 1)
                                       else st.skippedExcluded)
            && st'.observed == (if r.observe then Add64(st.observed, 1) else st.observed)
            && Core(z') == Core(z).(dns := Dns(c, st'))
  {
    RunStep(s, es, i);
    QueryExactly(Run(s, es[..i]), es[i].port, es[i].pid);
  }

  /** Removing a policy removes that AppId's alone, and reports NotFound exactly when there is none. */
  lemma RemovePolicyExactly(s: State, e: Event)
    requires e.RemovePolicy? && Distinct(s.policies)
    ensures var (s', r) := Step(s, e);
            if Lookup(s.policies, e.key).Some? then
              r == Returned(Success) && Removed(s.policies, e.key, s'.policies) && s' == s.(policies := s'.policies)
            else r == Returned(NotFound) && s' == s
  {
    RemoveExactly(s.policies, e.key);
  }

  /** A poll and an explicit count answer with the poll's status and success, and change counts alone. */
  lemma CountEventExactly(s: State, e: Event)
    requires e.PollEvent? || e.SetNdisEvent?
    ensures var (s', r) := Step(s, e);
            && r == Returned(if e.PollEvent? then e.poll.status else Success)
            && s'.coord == s.coord.(ndisCount := s'.coord.ndisCount, pollGeneration := s'.coord.pollGeneration)
            && s' == s.(coord := s'.coord, reported := s.reported.(filterCount := s'.reported.filterCount))
  {
  }

  // ----- the kill switch over runs -----

  predicate IsKillSwitchRequest(e: Event) {
    e.Ioctl? && Decode(e.req.code) == Some(SetKillSwitchMode)
  }

  /** The i-th event is a kill-switch request that succeeded. */
  ghost predicate KillSwitchSetAt(s: State, es: seq<Event>, i: nat)
    requires i < |es|
  {
    IsKillSwitchRequest(es[i]) && ResponseAt(s, es, i).reply.status.Ok()
  }

  lemma KillSwitchHandle(s: State, op: Op, input: Input, env: Env)
    ensures var (s', reply) := Handle(s, op, input, env);
            if op == SetKillSwitchMode && reply.status.Ok() then
              && SetKillSwitch(s.ks, Some(input.killSwitch)) == (s'.ks, Success)
              && s'.reported.killSwitchMode == s'.ks.mode
            else s'.ks == s.ks
  {
  }

  lemma KillSwitchFrame(s: State, e: Event)
    ensures var (s', r) := Step(s, e);
            if IsKillSwitchRequest(e) && r.reply.status.Ok() then
              SetKillSwitch(s.ks, Some(e.req.input.killSwitch)) == (s'.ks, Success)
              && s'.reported.killSwitchMode == s'.ks.mode
            else s'.ks == s.ks
  {
    if e.Ioctl? && Decode(e.req.code).Some? {
      KillSwitchHandle(s, Decode(e.req.code).value, e.req.input, e.env);
    }
  }

  lemma KillSwitchKept(s: State, es: seq<Event>, i: nat)
    requires i < |es| && !KillSwitchSetAt(s, es, i)
    ensures Run(s, es[..i + 1]).ks == Run(s, es[..i]).ks
  {
    RunStep(s, es, i);
    KillSwitchFrame(Run(s, es[..i]), es[i]);
  }

  lemma {:induction false} KillSwitchHolds(s: State, es: seq<Event>, i: nat, j: nat)
    requires i <= j <= |es|
    requires forall k :: i <= k < j ==> !KillSwitchSetAt(s, es, k)
    ensures Run(s, es[..j]).ks == Run(s, es[..i]).ks
  {
    if i < j {
      KillSwitchHolds(s, es, i, j - 1);
      KillSwitchKept(s, es, j - 1);
    }
  }

  /**
   After a successful request for BlockAll or AllowVpnOnly, every connection callout of the run
   ends in a block until the next successful kill-switch request, whatever else happens.
   */
  lemma KillSwitchBlocks(s: State, es: seq<Event>, i: nat, j: nat)
    requires i < j < |es| && es[j].Connect?
    requires KillSwitchSetAt(s, es, i) && es[i].req.input.killSwitch.mode in {KS_BLOCK_ALL, KS_ALLOW_VPN_ONLY}
    requires forall k :: i < k < j ==> !KillSwitchSetAt(s, es, k)
    ensures ResponseAt(s, es, j).out.action == ActionBlock
  {
    KillSwitchFrame(Run(s, es[..i]), es[i]);
    RunStep(s, es, i);
    KillSwitchHolds(s, es, i + 1, j);
    assert Engaged(Run(s, es[..j]).ks);
  }

  ghost function WithoutKillSwitch(es: seq<Event>): seq<Event> {
    if es == [] then []
    else WithoutKillSwitch(es[..|es| - 1]) + (if IsKillSwitchRequest(es[|es| - 1]) then [] else [es[|es| - 1]])
  }

  /** Equal but for the kill switch, its mirror and the telemetry. */
  ghost predicate SameButKillSwitch(a: State, b: State) {
    a.(ks := b.ks, tel := b.tel, reported := a.reported.(killSwitchMode := b.reported.killSwitchMode)) == b
  }

  lemma SameButKillSwitchStep(a: State, b: State, e: Event)
    requires SameButKillSwitch(a, b)
    ensures IsKillSwitchRequest(e) ==> SameButKillSwitch(Step(a, e).0, b)
    ensures !IsKillSwitchRequest(e) ==> SameButKillSwitch(Step(a, e).0, Step(b, e).0)
  {
    if e.Ioctl? && Decode(e.req.code).Some? {
      SameButKillSwitchHandle(a, b, Decode(e.req.code).value, e.req.input, e.env);
    }
  }

  lemma SameButKillSwitchHandle(a: State, b: State, op: Op, input: Input, env: Env)
    requires SameButKillSwitch(a, b)
    ensures op == SetKillSwitchMode ==> SameButKillSwitch(Handle(a, op, input, env).0, b)
    ensures op != SetKillSwitchMode ==> SameButKillSwitch(Handle(a, op, input, env).0, Handle(b, op, input, env).0)
  {
  }

  lemma {:induction false} KillSwitchInvisible(s: State, es: seq<Event>)
    ensures SameButKillSwitch(Run(s, es), Run(s, WithoutKillSwitch(es)))
  {
    if es != [] {
      var p, e := es[..|es| - 1], es[|es| - 1];
      KillSwitchInvisible(s, p);
      SameButKillSwitchStep(Run(s, p), Run(s, WithoutKillSwitch(p)), e);
      var q := WithoutKillSwitch(p);
      if IsKillSwitchRequest(e) {
        assert q + [] == q;
      } else {
        assert (q + [e])[..|q|] == q;
      }
    }
  }

  /**
   A kill-switch episode is transparent: if the switch was off before a run and is off after it,
   every later connection is decided as in the same run without its kill-switch requests.
   */
  lemma EpisodeTransparent(s: State, es: seq<Event>, conn: Option<Connection>)
    requires !Engaged(s.ks) && !Engaged(Run(s, es).ks)
    ensures DecisionIn(Run(s, es), conn) == DecisionIn(Run(s, WithoutKillSwitch(es)), conn)
  {
    KillSwitchInvisible(s, es);
    NeverSet(s, WithoutKillSwitch(es));
    WithoutKillSwitchHasNone(es);
    EngagedBlocksAll(Run(s, es).ks, Run(s, es).policies, Run(s, es).routes, conn);
    EngagedBlocksAll(s.ks, Run(s, es).policies, Run(s, es).routes, conn);
  }

  /**
   The same, said of the requests: from a run that starts with the switch off and whose last
   successful kill-switch request is a Restore or Off, no later decision can tell the requests
   were ever made.
   */
  lemma RestoreTransparent(s: State, es: seq<Event>, i: nat, conn: Option<Connection>)
    requires !Engaged(s.ks) && i < |es|
    requires KillSwitchSetAt(s, es, i) && es[i].req.input.killSwitch.mode in {KS_OFF, KS_RESTORE}
    requires forall k :: i < k < |es| ==> !KillSwitchSetAt(s, es, k)
    ensures DecisionIn(Run(s, es), conn) == DecisionIn(Run(s, WithoutKillSwitch(es)), conn)
  {
    KillSwitchFrame(Run(s, es[..i]), es[i]);
    RunStep(s, es, i);
    KillSwitchHolds(s, es, i + 1, |es|);
    assert es[..|es|] == es;
    EpisodeTransparent(s, es, conn);
  }

  lemma {:induction false} WithoutKillSwitchHasNone(es: seq<Event>)
    ensures forall i :: 0 <= i < |WithoutKillSwitch(es)| ==> !IsKillSwitchRequest(WithoutKillSwitch(es)[i])
  {
    if es != [] { WithoutKillSwitchHasNone(es[..|es| - 1]); }
  }

  lemma NeverSet(s: State, es: seq<Event>)
    ensures (forall i :: 0 <= i < |es| ==> !IsKillSwitchRequest(es[i])) ==> Run(s, es).ks == s.ks
  {
    if forall i :: 0 <= i < |es| ==> !IsKillSwitchRequest(es[i]) {
      KillSwitchHolds(s, es, 0, |es|);
      assert es[..|es|] == es && es[..0] == [];
    }
  }

  // ----- the reported kill-switch mode -----

  predicate IsImport(e: Event) {
    e.Ioctl? && Decode(e.req.code) == Some(ImportState)
  }

  ghost predicate MirrorAgrees(s: State) {
    s.reported.killSwitchMode == s.ks.mode
  }

  /**
   The reported kill-switch mode is not always the enforced one. Start-up reports Off whatever
   the registry set; a successful set makes the two agree; a successful import makes them agree
   exactly when the imported mode is the enforced one; nothing else changes their agreement.
   */
  lemma MirrorExactly(s: State, e: Event)
    ensures var (s', r) := Step(s, e);
            MirrorAgrees(s') <==>
              if IsKillSwitchRequest(e) && r.reply.status.Ok() then true
              else if IsImport(e) && r.reply.status.Ok() then e.req.input.blob.killSwitchMode == s.ks.mode
              else MirrorAgrees(s)
  {
    KillSwitchFrame(s, e);
    if e.Ioctl? && Decode(e.req.code).Some? {
      MirrorHandle(s, Decode(e.req.code).value, e.req.input, e.env);
    }
  }

  lemma MirrorHandle(s: State, op: Op, input: Input, env: Env)
    ensures var (s', reply) := Handle(s, op, input, env);
            s'.reported.killSwitchMode ==
              if op == SetKillSwitchMode && reply.status.Ok() then s'.ks.mode
              else if op == ImportState && reply.status.Ok() then input.blob.killSwitchMode
              else s.reported.killSwitchMode
  {
  }

  lemma MirrorAtEntry(env: EntryEnv)
    requires Enter(Loaded(), env).1.Ok()
    ensures MirrorAgrees(Enter(Loaded(), env).0) <==> RegistryKillSwitch(env.registryKillSwitch) == KS_OFF
  {
  }

  ghost predicate ImportSucceedsAt(s: State, es: seq<Event>, i: nat)
    requires i < |es|
  {
    IsImport(es[i]) && ResponseAt(s, es, i).reply.status.Ok()
  }

  lemma MirrorKept(s: State, es: seq<Event>, i: nat)
    requires i < |es| && !ImportSucceedsAt(s, es, i)
    requires KillSwitchSetAt(s, es, i) || MirrorAgrees(Run(s, es[..i]))
    ensures MirrorAgrees(Run(s, es[..i + 1]))
  {
    RunStep(s, es, i);
    MirrorExactly(Run(s, es[..i]), es[i]);
  }

  lemma {:induction false} MirrorStays(s: State, es: seq<Event>, i: nat, j: nat)
    requires i <= j <= |es| && MirrorAgrees(Run(s, es[..i]))
    requires forall k :: i <= k < j ==> !ImportSucceedsAt(s, es, k)
    ensures MirrorAgrees(Run(s, es[..j]))
  {
    if i < j {
      MirrorStays(s, es, i, j - 1);
      MirrorKept(s, es, j - 1);
    }
  }

  /** From a successful set until the next successful import the reported mode is the enforced one. */
  lemma MirrorHolds(s: State, es: seq<Event>, i: nat, j: nat)
    requires i < j <= |es| && KillSwitchSetAt(s, es, i)
    requires forall k :: i < k < j ==> !ImportSucceedsAt(s, es, k)
    ensures MirrorAgrees(Run(s, es[..j]))
  {
    MirrorKept(s, es, i);
    MirrorStays(s, es, i + 1, j);
  }

  // ----- the NDIS filter count -----

  /** The poll an event makes: an explicit one, or a mode request for Ndis or into Hybrid. */
  ghost function PollOf(s: State, e: Event): Option<Poll> {
    match e
    case PollEvent(poll) => Some(poll)
    case Ioctl(req, env) =>
      if Admit(req, env).Accept? && Decode(req.code) == Some(SetGuardianMode)
         && (req.input.mode == MODE_NDIS || (req.input.mode == MODE_HYBRID && s.reported.mode != MODE_HYBRID))
      then Some(env.poll) else None
    case _ => None
  }

  /**
   In a reachable state only a successful poll or an explicit count changes the NDIS count, and
   in the modes that use it the reported filter count is that count, otherwise zero; a failed poll
   keeps the last good count.
   */
  lemma CountFollowsPolls(s: State, e: Event)
    requires Inv(s)
    ensures var s', poll := Step(s, e).0, PollOf(s, e);
            && s'.coord.ndisCount ==
                 (if e.SetNdisEvent? then e.count
                  else if poll.Some? && poll.value.status.Ok() then poll.value.count
                  else s.coord.ndisCount)
            && s'.reported.filterCount ==
                 (if s'.reported.mode == MODE_WFP then 0 else s'.coord.ndisCount)
            && s'.coord.pollGeneration == Add32(s.coord.pollGeneration, if poll.Some? then 1 else 0)
  {
    StepKeeps(s, e);
    if e.Ioctl? && Decode(e.req.code).Some? {
      CoordinatorFrame(s, Decode(e.req.code).value, e.req.input, e.env);
    }
  }

  lemma CoordinatorFrame(s: State, op: Op, input: Input, env: Env)
    ensures op != SetGuardianMode ==> Handle(s, op, input, env).0.coord == s.coord
  {
  }

  // ----- telemetry over runs -----

  ghost function IpcHistory(s: State, es: seq<Event>): seq<(bool, U64)> {
    if es == [] then []
    else
      var p, e := es[..|es| - 1], es[|es| - 1];
      IpcHistory(s, p)
      + if e.Ioctl? then [(!Dispatch(Run(s, p), e.req, e.env).1.status.Ok(), e.env.latency)] else []
  }

  ghost function ClassifyHistory(s: State, es: seq<Event>): seq<(Action, U64)> {
    if es == [] then []
    else
      var p, e := es[..|es| - 1], es[|es| - 1];
      var o := if e.Connect? then DecisionIn(Run(s, p), e.conn) else Failed(Success);
      ClassifyHistory(s, p) + if o.Decided? then [(o.verdict.action, e.latency)] else []
  }

  /** Classifications of a run that ended in a failed lookup. */
  ghost function FailureCount(s: State, es: seq<Event>): nat {
    if es == [] then 0
    else
      var p, e := es[..|es| - 1], es[|es| - 1];
      FailureCount(s, p) + if e.Connect? && DecisionIn(Run(s, p), e.conn).Failed? then 1 else 0
  }

  ghost function DnsCount(s: State, es: seq<Event>, k: DnsClass): nat {
    if es == [] then 0
    else
      var p, e := es[..|es| - 1], es[|es| - 1];
      DnsCount(s, p, k)
      + if e.DnsQuery? && ClassifyDns(Run(s, p).dns.config, e.port, e.pid) == k then 1 else 0
  }

  predicate IsRequest(e: Event) { e.Ioctl? }

  predicate IsConnect(e: Event) { e.Connect? }

  predicate IsDnsQuery(e: Event) { e.DnsQuery? && e.port == DNS_PORT }

  ghost function EventCount(es: seq<Event>, f: Event -> bool): nat {
    if es == [] then 0 else EventCount(es[..|es| - 1], f) + if f(es[|es| - 1]) then 1 else 0
  }

  /** Handlers leave telemetry and DNS statistics alone. */
  lemma StatisticsFrame(s: State, op: Op, input: Input, env: Env)
    ensures Handle(s, op, input, env).0.tel == s.tel && Handle(s, op, input, env).0.dns.stats == s.dns.stats
  {
  }

  lemma TelemetryStep(s: State, e: Event)
    ensures var t, t' := s.tel, Step(s, e).0.tel;
            match e
            case Ioctl(req, env) =>
              t' == t.(ipc := RecordIpc(t.ipc, !Dispatch(s, req, env).1.status.Ok(), env.latency))
            case Connect(conn, latency, out) => t' == RecordOutcome(t, DecisionIn(s, conn), latency)
            case DnsQuery(port, pid) =>
              var observed := ClassifyDns(s.dns.config, port, pid) == ToObserve;
              t' == if observed then t.(dnsObserved := Bump(t.dnsObserved)) else t
            case _ => t' == t
  {
    if e.Ioctl? && Decode(e.req.code).Some? {
      StatisticsFrame(s, Decode(e.req.code).value, e.req.input, e.env);
    }
  }

  lemma {:induction false} IpcOfRun(s: State, es: seq<Event>)
    requires s.tel == ZERO_TELEMETRY
    ensures Run(s, es).tel.ipc == IpcRun(IpcHistory(s, es))
  {
    if es != [] {
      var p, e := es[..|es| - 1], es[|es| - 1];
      IpcOfRun(s, p);
      TelemetryStep(Run(s, p), e);
      var a, b := IpcHistory(s, p), IpcHistory(s, es);
      assert if e.Ioctl? then b[..|a|] == a else a == b;
    }
  }

  lemma {:induction false} ClassifyOfRun(s: State, es: seq<Event>)
    requires s.tel == ZERO_TELEMETRY
    ensures Run(s, es).tel.classify == ClassifyRun(ClassifyHistory(s, es))
  {
    if es != [] {
      var p, e := es[..|es| - 1], es[|es| - 1];
      ClassifyOfRun(s, p);
      TelemetryStep(Run(s, p), e);
      var a, b := ClassifyHistory(s, p), ClassifyHistory(s, es);
      assert if |a| < |b| then b[..|a|] == a else a == b;
    }
  }

  lemma ErrorStep(s: State, e: Event, n: nat)
    requires s.tel.errors == Low64(n)
    ensures var failed := e.Connect? && DecisionIn(s, e.conn).Failed?;
            Step(s, e).0.tel.errors == Low64(n + if failed then 1 else 0)
  {
    TelemetryStep(s, e);
    WordFollows(s.tel.errors, n, e.Connect? && DecisionIn(s, e.conn).Failed?);
  }

  lemma ObservedWord(s: State, e: Event)
    ensures Step(s, e).0.tel.dnsObserved ==
            if e.DnsQuery? && ClassifyDns(s.dns.config, e.port, e.pid) == ToObserve then Bump(s.tel.dnsObserved)
            else s.tel.dnsObserved
  {
    TelemetryStep(s, e);
  }

  lemma ObservedStep(s: State, e: Event, n: nat)
    requires s.tel.dnsObserved == Low64(n)
    ensures var observed := e.DnsQuery? && ClassifyDns(s.dns.config, e.port, e.pid) == ToObserve;
            Step(s, e).0.tel.dnsObserved == Low64(n + if observed then 1 else 0)
  {
    ObservedWord(s, e);
    WordFollows(s.tel.dnsObserved, n, e.DnsQuery? && ClassifyDns(s.dns.config, e.port, e.pid) == ToObserve);
  }

  lemma {:induction false} ErrorsOfRun(s: State, es: seq<Event>)
    requires s.tel == ZERO_TELEMETRY
    ensures Run(s, es).tel.errors == Low64(FailureCount(s, es))
  {
    if es != [] {
      var p := es[..|es| - 1];
      ErrorsOfRun(s, p);
      ErrorStep(Run(s, p), es[|es| - 1], FailureCount(s, p));
    }
  }

  lemma {:induction false} DnsCounterOfRun(s: State, es: seq<Event>)
    requires s.tel == ZERO_TELEMETRY
    ensures Run(s, es).tel.dnsObserved == Low64(DnsCount(s, es, ToObserve))
  {
    if es != [] {
      var p := es[..|es| - 1];
      DnsCounterOfRun(s, p);
      ObservedStep(Run(s, p), es[|es| - 1], DnsCount(s, p, ToObserve));
    }
  }

  /** The counters after a run are exactly its history, word by word. */
  lemma TelemetryOfRun(s: State, es: seq<Event>)
    requires s.tel == ZERO_TELEMETRY
    ensures Run(s, es).tel ==
            Telemetry(ClassifyRun(ClassifyHistory(s, es)), Low64(FailureCount(s, es)),
                      Low64(DnsCount(s, es, ToObserve)), IpcRun(IpcHistory(s, es)))
  {
    IpcOfRun(s, es);
    ClassifyOfRun(s, es);
    ErrorsOfRun(s, es);
    DnsCounterOfRun(s, es);
  }

  /** Every connection of a run is either classified or failed, and each classification has one action. */
  lemma {:induction false} ConnectionsAccounted(s: State, es: seq<Event>)
    ensures EventCount(es, IsConnect) == |ClassifyHistory(s, es)| + FailureCount(s, es)
    ensures EventCount(es, IsRequest) == |IpcHistory(s, es)|
  {
    if es != [] { ConnectionsAccounted(s, es[..|es| - 1]); }
  }

  /**
   What a reachable state reports about latency and rejects: the classify average is the
   classify maximum, the IPC average is at most the IPC maximum whenever the number of requests
   is one for which that is so for all latencies, and rejects never exceed dispatches whenever
   that is so for the number of requests.
   */
  lemma ReportsOfRun(env: EntryEnv, es: seq<Event>)
    requires Enter(Loaded(), env).1.Ok()
    ensures var s, n := Run(Enter(Loaded(), env).0, es), EventCount(es, IsRequest);
            && TelemetryReportOf(s.tel).avgClassify == TelemetryReportOf(s.tel).maxClassify
            && (AverageSound(n) ==> PerfStats(s).avgIpc <= PerfStats(s).maxIpc)
            && (RejectsSound(n) ==> PerfStats(s).rejects <= PerfStats(s).dispatches)
  {
    var s0 := Enter(Loaded(), env).0;
    EntryEstablishes(env);
    TelemetryOfRun(s0, es);
    ConnectionsAccounted(s0, es);
    OnlyFirstSample(ClassifyHistory(s0, es));
    if AverageSound(|IpcHistory(s0, es)|) { AverageWithinMaximum(IpcHistory(s0, es)); }
    if RejectsSound(|IpcHistory(s0, es)|) { RejectsSoundExactly(|IpcHistory(s0, es)|); }
  }

  // ----- DNS over runs -----

  lemma DnsStep(s: State, e: Event)
    ensures Step(s, e).0.dns.stats ==
            if e.DnsQuery? then CountDns(s.dns.stats, ClassifyDns(s.dns.config, e.port, e.pid)) else s.dns.stats
  {
    if e.Ioctl? && Decode(e.req.code).Some? {
      StatisticsFrame(s, Decode(e.req.code).value, e.req.input, e.env);
    }
  }

  lemma {:induction false} DnsStatsOfRun(s: State, es: seq<Event>)
    requires s.dns == InitialDns()
    ensures Run(s, es).dns.stats ==
            DnsStats(Low64(DnsCount(s, es, ToObserve)), Low64(DnsCount(s, es, ExcludedPid)),
                     Low64(DnsCount(s, es, Disabled)))
  {
    if es != [] {
      var p, e := es[..|es| - 1], es[|es| - 1];
      DnsStatsOfRun(s, p);
      DnsStep(Run(s, p), e);
      if e.DnsQuery? {
        CountDnsWords(DnsCount(s, p, ToObserve), DnsCount(s, p, ExcludedPid), DnsCount(s, p, Disabled),
                      ClassifyDns(Run(s, p).dns.config, e.port, e.pid));
      }
    }
  }

  lemma {:induction false} DnsPartition(s: State, es: seq<Event>)
    ensures DnsCount(s, es, ToObserve) + DnsCount(s, es, ExcludedPid) + DnsCount(s, es, Disabled)
            == EventCount(es, IsDnsQuery)
  {
    if es != [] { DnsPartition(s, es[..|es| - 1]); }
  }

  /**
   From start-up on, every port-53 query is counted in exactly one of the three statistics, and
   the observed ones agree with the telemetry counter.
   */
  lemma DnsOfRun(env: EntryEnv, es: seq<Event>)
    requires Enter(Loaded(), env).1.Ok()
    ensures var s0 := Enter(Loaded(), env).0;
            var s := Run(s0, es);
            var o, x, d := DnsCount(s0, es, ToObserve), DnsCount(s0, es, ExcludedPid), DnsCount(s0, es, Disabled);
            && s.dns.stats == DnsStats(Low64(o), Low64(x), Low64(d))
            && o + x + d == EventCount(es, IsDnsQuery)
            && s.dns.stats.observed == s.tel.dnsObserved
            && s.dns.config.observeOnly
  {
    var s0 := Enter(Loaded(), env).0;
    EntryEstablishes(env);
    DnsStatsOfRun(s0, es);
    DnsPartition(s0, es);
    TelemetryOfRun(s0, es);
    RunKeeps(s0, es);
  }

  // ----- unload -----

  /** Unloading after any run stops the driver with no callout, coordinator, policy or route left. */
  lemma UnloadAfterRun(env: EntryEnv, es: seq<Event>)
    requires Enter(Loaded(), env).1.Ok()
    ensures var s := Unload(Run(Enter(Loaded(), env).0, es));
            && s.reported.lifecycle == Stopped && s.callouts == Callouts(false, 0) && !s.coord.active
            && s.policies == [] && s.routes == []
  {
    EntryEstablishes(env);
    RunKeeps(Enter(Loaded(), env).0, es);
  }
}

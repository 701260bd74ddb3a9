/** The kill switch and the one pure decision every classification amounts to. */
module Decisions {
  import opened Base
  import opened OrderedTable
  import opened Policies

  const KS_OFF: U32 := 0
  const KS_BLOCK_ALL: U32 := 1
  const KS_ALLOW_VPN_ONLY: U32 := 2
  const KS_RESTORE: U32 := 3
  const KS_VERSION: U32 := 1

  const POLICY_BLOCK: U32 := 1
  const POLICY_ROUTE: U32 := 2
  const POLICY_OBSERVE: U32 := 3

  const ROUTE_DIRECT: U32 := 0
  const ROUTE_VPN: U32 := 1
  const ROUTE_TAILNET: U32 := 2
  const ROUTE_TOR: U32 := 3
  const ROUTE_ANONYMOUS: U32 := 4
  const ROUTE_BLOCKED: U32 := 5
  const ROUTE_PROXY: U32 := 6
  const ROUTE_CHAIN: U32 := 7
  const MAX_SYNC_ROUTES: nat := 512

  datatype RouteBody = RouteBody(kind: U32, luid: U64)

  type Route = Record<RouteBody>

  datatype KillSwitch = KillSwitch(mode: U32, vpnLuid: U64)

  datatype KillSwitchConfig = KillSwitchConfig(version: U32, mode: U32, vpnLuid: U64)

  datatype Action = Permit | Block | Steer | Observe

  datatype Verdict = Verdict(action: Action, luid: U64)

  /** A classification: a verdict, or the status of a failed lookup. */
  datatype Outcome = Decided(verdict: Verdict) | Failed(status: NtStatus)

  function SetKillSwitch(ks: KillSwitch, arg: Option<KillSwitchConfig>): (KillSwitch, NtStatus) {
    if arg.None? || arg.value.version != KS_VERSION || KS_RESTORE < arg.value.mode then (ks, InvalidParameter)
    else if arg.value.mode == KS_RESTORE then (KillSwitch(KS_OFF, 0), Success)
    else (KillSwitch(arg.value.mode, arg.value.vpnLuid), Success)
  }

  function EvaluateKillSwitch(ks: KillSwitch, luid: U64): Option<Action> {
    if ks.mode == KS_BLOCK_ALL then Some(Block)
    else if ks.mode == KS_ALLOW_VPN_ONLY then
      Some(if ks.vpnLuid != 0 && luid == ks.vpnLuid then Permit else Block)
    else None
  }

  predicate Engaged(ks: KillSwitch) {
    ks.mode == KS_BLOCK_ALL || ks.mode == KS_ALLOW_VPN_ONLY
  }

  function PolicyVerdict(p: Policy): Verdict {
    if p.body.action == POLICY_BLOCK then Verdict(Block, 0)
    else if p.body.action == POLICY_ROUTE then Verdict(Steer, p.body.luid)
    else if p.body.action == POLICY_OBSERVE then Verdict(Observe, 0)
    else Verdict(Permit, 0)
  }

  function Override(v: Verdict, route: Option<Route>): Verdict {
    if route.None? then v
    else
      var kind := route.value.body.kind;
      if kind == ROUTE_BLOCKED then v.(action := Block)
      else if kind == ROUTE_VPN || kind == ROUTE_TAILNET then Verdict(Steer, route.value.body.luid)
      else if kind in {ROUTE_TOR, ROUTE_PROXY, ROUTE_ANONYMOUS, ROUTE_CHAIN} then v.(action := Permit)
      else v
  }

  /** Kill switch, then first-match policy, then the route of that policy's AppId. */
  function Decide(ks: KillSwitch, policies: seq<Policy>, routes: seq<Route>, conn: Option<Connection>): Outcome {
    match EvaluateKillSwitch(ks, 0)
    case Some(action) => Decided(Verdict(action, 0))
    case None =>
      if conn.None? then Failed(InvalidParameter)
      else
        match FirstMatch(policies, conn.value)
        case None => Decided(Verdict(Permit, 0))
        case Some(p) => Decided(Override(PolicyVerdict(p), Lookup(routes, p.key)))
  }

  // ----- what the decision means -----

  /** The route neither blocks, steers nor releases: absent, Direct or of a kind the driver does not know. */
  predicate Neutral(route: Option<Route>) {
    route.None? || route.value.body.kind == ROUTE_DIRECT || ROUTE_CHAIN < route.value.body.kind
  }

  /** An engaged kill switch blocks every connection: the LUID it is asked about is always 0. */
  lemma EngagedBlocksAll(ks: KillSwitch, policies: seq<Policy>, routes: seq<Route>, conn: Option<Connection>)
    ensures Engaged(ks) ==> Decide(ks, policies, routes, conn) == Decided(Verdict(Block, 0))
    ensures !Engaged(ks) ==> Decide(ks, policies, routes, conn) == Decide(KillSwitch(KS_OFF, 0), policies, routes, conn)
  {
  }

  /** With the kill switch off, exactly which policy and route block a connection. */
  lemma BlockedExactlyWhen(ks: KillSwitch, policies: seq<Policy>, routes: seq<Route>, c: Connection)
    requires !Engaged(ks)
    ensures var d := Decide(ks, policies, routes, Some(c));
            d.Decided? &&
            (d.verdict.action == Block <==>
             exists i :: 0 <= i < |policies| && Matches(policies[i], c)
               && (forall j :: 0 <= j < i ==> !Matches(policies[j], c))
               && var route := Lookup(routes, policies[i].key);
                  (route.Some? && route.value.body.kind == ROUTE_BLOCKED)
                  || (policies[i].body.action == POLICY_BLOCK && Neutral(route)))
  {
    var m := MatchIndex(policies, c);
    assert forall i :: 0 <= i < |policies| && Matches(policies[i], c) ==> m <= i;
  }

  /** A steered connection carries the LUID of its Vpn or Tailnet route, otherwise its policy's. */
  lemma SteeredExactlyWhen(ks: KillSwitch, policies: seq<Policy>, routes: seq<Route>, c: Connection)
    requires !Engaged(ks)
    ensures var d := Decide(ks, policies, routes, Some(c));
            d.Decided? &&
            match FirstMatch(policies, c)
            case None => d.verdict == Verdict(Permit, 0)
            case Some(p) =>
              var route := Lookup(routes, p.key);
              var tunnel := route.Some? && route.value.body.kind in {ROUTE_VPN, ROUTE_TAILNET};
              && (d.verdict.action == Steer <==> tunnel || (p.body.action == POLICY_ROUTE && Neutral(route)))
              && (d.verdict.action == Steer ==>
                    d.verdict.luid == if tunnel then route.value.body.luid else p.body.luid)
  {
  }

  /** The route releases: its traffic leaves through a proxy, Tor, an anonymous network or a chain. */
  predicate Releases(route: Option<Route>) {
    route.Some? && route.value.body.kind in {3, 4, 6, 7}
  }

  /** The route tunnels: Vpn or Tailnet. */
  predicate Tunnels(route: Option<Route>) {
    route.Some? && route.value.body.kind in {1, 2}
  }

  /** With the kill switch off, exactly which policy and route leave a connection observed. */
  lemma ObservedExactlyWhen(ks: KillSwitch, policies: seq<Policy>, routes: seq<Route>, c: Connection)
    requires !Engaged(ks)
    ensures var d := Decide(ks, policies, routes, Some(c));
            d.Decided? &&
            (d.verdict.action == Observe <==>
             match FirstMatch(policies, c)
             case None => false
             case Some(p) => p.body.action == 3 && Neutral(Lookup(routes, p.key)))
  {
  }

  /** With the kill switch off, exactly which permit it. */
  lemma PermittedExactlyWhen(ks: KillSwitch, policies: seq<Policy>, routes: seq<Route>, c: Connection)
    requires !Engaged(ks)
    ensures var d := Decide(ks, policies, routes, Some(c));
            d.Decided? &&
            (d.verdict.action == Permit <==>
             match FirstMatch(policies, c)
             case None => true
             case Some(p) =>
               var route := Lookup(routes, p.key);
               Releases(route) || (Neutral(route) && p.body.action !in {1, 2, 3}))
  {
  }

  /** The LUID of a decision, whatever its action: of the tunnel, else of the Route policy, else zero. */
  lemma LuidExactly(ks: KillSwitch, policies: seq<Policy>, routes: seq<Route>, c: Connection)
    ensures var d := Decide(ks, policies, routes, Some(c));
            d.Decided? && d.verdict.luid ==
            if Engaged(ks) then 0
            else match FirstMatch(policies, c)
                 case None => 0
                 case Some(p) =>
                   var route := Lookup(routes, p.key);
                   if Tunnels(route) then route.value.body.luid else if p.body.action == 2 then p.body.luid else 0
  {
  }

  /** A classification fails exactly when there are no fixed values and the kill switch does not decide first. */
  lemma FailsExactlyWhen(ks: KillSwitch, policies: seq<Policy>, routes: seq<Route>, conn: Option<Connection>)
    ensures var d := Decide(ks, policies, routes, conn);
            (d.Failed? <==> !Engaged(ks) && conn.None?) && (d.Failed? ==> d.status == InvalidParameter)
  {
  }

  /** For any interface, what the switch does: nothing when off, and engaged only the VPN's own LUID passes. */
  lemma EvaluateExactly(ks: KillSwitch, luid: U64)
    ensures EvaluateKillSwitch(ks, luid) == None <==> ks.mode !in {1, 2}
    ensures EvaluateKillSwitch(ks, luid) == Some(Permit) <==> ks.mode == 2 && luid == ks.vpnLuid && luid != 0
    ensures EvaluateKillSwitch(ks, luid) in {None, Some(Permit), Some(Block)}
  {
  }

  /** What a kill-switch request leaves: Restore resets mode and LUID, other valid modes store both. */
  lemma SetSwitchExactly(ks: KillSwitch, arg: Option<KillSwitchConfig>)
    ensures var (ks', status) := SetKillSwitch(ks, arg);
            && (status == Success <==> arg.Some? && arg.value.version == 1 && arg.value.mode in {0, 1, 2, 3})
            && (status != Success ==> status == InvalidParameter && ks' == ks)
            && (status == Success ==>
                  && ks'.mode == (if arg.value.mode == 3 then 0 else arg.value.mode)
                  && ks'.vpnLuid == (if arg.value.mode == 3 then 0 else arg.value.vpnLuid))
  {
  }

  // ----- the callout -----

  datatype WfpAction = ActionNone | ActionPermit | ActionBlock

  datatype ClassifyOut = ClassifyOut(action: WfpAction, writeRight: bool, absorb: bool)

  function CalloutVerdict(out: ClassifyOut, outcome: Outcome): ClassifyOut {
    ClassifyOut(
      if outcome.Decided? && outcome.verdict.action == Block then ActionBlock else ActionPermit,
      false, out.absorb)
  }

  /** Only a decided Block blocks; steered, observed and failed connections are permitted, never with ABSORB. */
  lemma CalloutExactly(out: ClassifyOut, outcome: Outcome)
    ensures var r := CalloutVerdict(out, outcome);
            && (r.action == ActionBlock <==> outcome.Decided? && outcome.verdict.action == Block)
            && (r.action == ActionPermit <==> outcome.Failed? || outcome.verdict.action in {Permit, Steer, Observe})
            && !r.writeRight && r.absorb == out.absorb
  {
  }
}

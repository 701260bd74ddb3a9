/**
 When the three reads of a classification amount to one. Kill switch, policies and routes are read
 under three locks, one after the other; the decision is that of a single moment for all contents
 of the writes exactly when no two writes of different kinds fall between the reads in an order
 that tears them apart.
 */
module TornDecisions {
  import opened Base
  import opened OrderedTable
  import opened Policies
  import opened Decisions
  import opened DriverThreads
  import C = Counters
  import D = DriverModel

  type Schedule = seq<(Tid, Move)>

  /** What a classification made at one moment alone would decide. */
  function DecisionAt(s: World, conn: Option<Connection>): Outcome {
    Decide(s.ks, s.policies, s.routes, conn)
  }

  predicate SwitchWrite(steps: Schedule, q: nat) { q < |steps| && steps[q].1.WriteKillSwitch? }

  predicate PolicyWrite(steps: Schedule, q: nat) { q < |steps| && steps[q].1.WritePolicies? }

  predicate RouteWrite(steps: Schedule, q: nat) { q < |steps| && steps[q].1.WriteRoutes? }

  /**
   Two writes, a before b, that tear a classification which reads the kill switch at i, the
   policies at j and, if it reads them, the routes at l: the second is seen and the first is not.
   */
  predicate TornPair(steps: Schedule, i: nat, j: nat, l: nat, a: nat, b: nat) {
    || (i <= a < b < j && SwitchWrite(steps, a) && PolicyWrite(steps, b))
    || (i <= a < b < l && j < l && SwitchWrite(steps, a) && RouteWrite(steps, b))
    || (j <= a < b < l && PolicyWrite(steps, a) && RouteWrite(steps, b))
  }

  ghost predicate Torn(steps: Schedule, i: nat, j: nat, l: nat) {
    exists a, b :: TornPair(steps, i, j, l, a, b)
  }

  // ----- untorn reads -----

  /** The first moment of [lo, hi] from which on no policies are written before hi. */
  function PoliciesSettle(steps: Schedule, lo: nat, hi: nat): (x: nat)
    requires lo <= hi <= |steps|
    ensures lo <= x <= hi && (x == lo || PolicyWrite(steps, x - 1))
    ensures forall q :: x <= q < hi ==> !PolicyWrite(steps, q)
    decreases hi - lo
  {
    if lo == hi || PolicyWrite(steps, hi - 1) then hi else PoliciesSettle(steps, lo, hi - 1)
  }

  function RoutesSettle(steps: Schedule, lo: nat, hi: nat): (x: nat)
    requires lo <= hi <= |steps|
    ensures lo <= x <= hi && (x == lo || RouteWrite(steps, x - 1))
    ensures forall q :: x <= q < hi ==> !RouteWrite(steps, q)
    decreases hi - lo
  {
    if lo == hi || RouteWrite(steps, hi - 1) then hi else RoutesSettle(steps, lo, hi - 1)
  }

  lemma SwitchStays(w: World, steps: Schedule, x: nat, y: nat)
    requires x <= y <= |steps| && forall q :: x <= q < y ==> !SwitchWrite(steps, q)
    ensures Moment(w, steps, y).ks == Moment(w, steps, x).ks
  {
    forall q | x <= q < y ensures !steps[q].1.WriteKillSwitch? { assert !SwitchWrite(steps, q); }
    KillSwitchStays(w, steps, x, y);
  }

  lemma {:induction false} PoliciesStay(w: World, steps: Schedule, x: nat, y: nat)
    requires x <= y <= |steps| && forall q :: x <= q < y ==> !PolicyWrite(steps, q)
    ensures Moment(w, steps, y).policies == Moment(w, steps, x).policies
    decreases y
  {
    if x < y {
      assert !PolicyWrite(steps, y - 1);
      PoliciesStay(w, steps, x, y - 1);
      MomentStep(w, steps, y - 1);
    }
  }

  lemma {:induction false} RoutesStay(w: World, steps: Schedule, x: nat, y: nat)
    requires x <= y <= |steps| && forall q :: x <= q < y ==> !RouteWrite(steps, q)
    ensures Moment(w, steps, y).routes == Moment(w, steps, x).routes
    decreases y
  {
    if x < y {
      assert !RouteWrite(steps, y - 1);
      RoutesStay(w, steps, x, y - 1);
      MomentStep(w, steps, y - 1);
    }
  }

  /** Three untorn reads see the state of one moment between the first and the last. */
  lemma UntornMoment(w: World, steps: Schedule, i: nat, j: nat, l: nat) returns (x: nat)
    requires i <= j < l <= |steps| && !Torn(steps, i, j, l)
    ensures i <= x <= l
    ensures Moment(w, steps, x).ks == Moment(w, steps, i).ks
    ensures Moment(w, steps, x).policies == Moment(w, steps, j).policies
    ensures Moment(w, steps, x).routes == Moment(w, steps, l).routes
  {
    var y, z := PoliciesSettle(steps, i, j), RoutesSettle(steps, i, l);
    x := if y < z then z else y;
    forall a | i <= a < x ensures !SwitchWrite(steps, a) { assert !TornPair(steps, i, j, l, a, x - 1); }
    SwitchStays(w, steps, i, x);
    RoutesStay(w, steps, x, l);
    if x <= j {
      PoliciesStay(w, steps, x, j);
    } else {
      forall a | j <= a < x ensures !PolicyWrite(steps, a) { assert !TornPair(steps, i, j, l, a, x - 1); }
      PoliciesStay(w, steps, j, x);
    }
  }

  /** Two untorn reads, likewise. */
  lemma UntornPrefix(w: World, steps: Schedule, i: nat, j: nat) returns (x: nat)
    requires i <= j <= |steps| && !Torn(steps, i, j, j)
    ensures i <= x <= j
    ensures Moment(w, steps, x).ks == Moment(w, steps, i).ks
    ensures Moment(w, steps, x).policies == Moment(w, steps, j).policies
  {
    x := PoliciesSettle(steps, i, j);
    forall a | i <= a < x ensures !SwitchWrite(steps, a) { assert !TornPair(steps, i, j, j, a, x - 1); }
    SwitchStays(w, steps, i, x);
    PoliciesStay(w, steps, x, j);
  }

  /**
   A completed classification whose reads no pair of writes tears is the decision of one moment
   between its first and its last read.
   */
  lemma SingleMomentDecision(w: World, steps: Schedule, n: nat)
    requires w.pcs == map[] && w.done == [] && n < |After(w, steps).done|
    ensures var x := After(w, steps).done[n];
            Torn(steps, x.m.ksAt, x.m.policyAt, x.m.routeAt)
            || exists k :: x.m.ksAt <= k <= x.m.routeAt < |steps| && x.o == DecisionAt(Moment(w, steps, k), x.m.conn)
  {
    ConcurrentDecision(w, steps, n);
    var x := After(w, steps).done[n];
    if !Torn(steps, x.m.ksAt, x.m.policyAt, x.m.routeAt) {
      JustifiedAtOnce(w, steps, x.t, x.o, x.m);
    }
  }

  lemma JustifiedAtOnce(w: World, steps: Schedule, t: Tid, o: Outcome, m: Moments)
    requires Justified(w, steps, t, o, m) && !Torn(steps, m.ksAt, m.policyAt, m.routeAt)
    ensures exists k :: m.ksAt <= k <= m.routeAt && o == DecisionAt(Moment(w, steps, k), m.conn)
  {
    var k;
    if m.policyAt < m.routeAt {
      k := UntornMoment(w, steps, m.ksAt, m.policyAt, m.routeAt);
    } else {
      k := UntornPrefix(w, steps, m.ksAt, m.policyAt);
    }
    assert o == DecisionAt(Moment(w, steps, k), m.conn);
  }

  // ----- one classification among arbitrary writes -----

  /**
   A schedule around one classification: thread t begins it with the first step, reads the kill
   switch at i, the policies at j and the routes with the last step, and does nothing else.
   */
  predicate Window(steps: Schedule, t: Tid, c: Connection, i: nat, j: nat) {
    && 0 < i < j < |steps| - 1
    && steps[0] == (t, Begin(Some(c))) && steps[i] == (t, EvaluateKillSwitchNow)
    && steps[j] == (t, FindPolicy) && steps[|steps| - 1] == (t, FindRoute)
    && forall q :: 0 < q < |steps| - 1 && q != i && q != j ==> steps[q].0 != t
  }

  /** Equal but for what is written. */
  predicate SameKind(m: Move, m': Move) {
    || m == m' || (m.WriteKillSwitch? && m'.WriteKillSwitch?)
    || (m.WritePolicies? && m'.WritePolicies?) || (m.WriteRoutes? && m'.WriteRoutes?)
  }

  predicate SameShape(steps: Schedule, steps': Schedule) {
    |steps| == |steps'|
    && forall q :: 0 <= q < |steps| ==> steps'[q].0 == steps[q].0 && SameKind(steps[q].1, steps'[q].1)
  }

  lemma {:induction false} Waits(w: World, steps: Schedule, t: Tid, x: nat, y: nat)
    requires x <= y <= |steps| && forall q :: x <= q < y ==> steps[q].0 != t
    ensures At(Moment(w, steps, y), t) == At(Moment(w, steps, x), t)
    decreases y
  {
    if x < y {
      Waits(w, steps, t, x, y - 1);
      MomentStep(w, steps, y - 1);
      OthersUnmoved(Moment(w, steps, y - 1), y - 1, steps[y - 1].0, steps[y - 1].1);
    }
  }

  /** What the three reads of a window make of its classification. */
  ghost function WindowDecision(w: World, steps: Schedule, c: Connection, i: nat, j: nat): Outcome
    requires i < j < |steps|
  {
    Decide(Moment(w, steps, i).ks, Moment(w, steps, j).policies, Moment(w, steps, |steps| - 1).routes, Some(c))
  }

  lemma SwitchRead(w: World, steps: Schedule, t: Tid, c: Connection, i: nat, j: nat)
    requires Window(steps, t, c, i, j) && At(w, t).Idle?
    ensures var ks, pc := Moment(w, steps, i).ks, At(Moment(w, steps, j), t);
            if Engaged(ks) then pc.Settled? && pc.o == Decided(Verdict(Block, 0))
            else pc == PastKillSwitch(Some(c), 0, i)
  {
    assert steps[..0] == [];
    MomentStep(w, steps, 0);
    Waits(w, steps, t, 1, i);
    MomentStep(w, steps, i);
    Waits(w, steps, t, i + 1, j);
  }

  lemma PolicyRead(w: World, steps: Schedule, t: Tid, c: Connection, i: nat, j: nat)
    requires Window(steps, t, c, i, j) && At(w, t).Idle? && !Engaged(Moment(w, steps, i).ks)
    ensures var p, pc := FirstMatch(Moment(w, steps, j).policies, c), At(Moment(w, steps, |steps| - 1), t);
            if p.Some? then pc == PolicyFound(Some(c), 0, i, j, p.value)
            else pc.Settled? && pc.o == Decided(Verdict(Permit, 0))
  {
    SwitchRead(w, steps, t, c, i, j);
    MomentStep(w, steps, j);
    Waits(w, steps, t, j + 1, |steps| - 1);
  }

  lemma WindowSettles(w: World, steps: Schedule, t: Tid, c: Connection, i: nat, j: nat)
    requires Window(steps, t, c, i, j) && At(w, t).Idle?
    ensures At(After(w, steps), t).Settled? && At(After(w, steps), t).o == WindowDecision(w, steps, c, i, j)
  {
    if Engaged(Moment(w, steps, i).ks) {
      EngagedSettles(w, steps, t, c, i, j);
    } else {
      PolicyRead(w, steps, t, c, i, j);
      RouteRead(w, steps, t, c, i, j, At(Moment(w, steps, |steps| - 1), t));
    }
  }

  lemma EngagedSettles(w: World, steps: Schedule, t: Tid, c: Connection, i: nat, j: nat)
    requires Window(steps, t, c, i, j) && At(w, t).Idle? && Engaged(Moment(w, steps, i).ks)
    ensures At(After(w, steps), t).Settled? && At(After(w, steps), t).o == Decided(Verdict(Block, 0))
  {
    assert steps[..|steps|] == steps;
    SwitchRead(w, steps, t, c, i, j);
    MomentStep(w, steps, j);
    Waits(w, steps, t, j + 1, |steps| - 1);
    MomentStep(w, steps, |steps| - 1);
  }

  lemma RouteRead(w: World, steps: Schedule, t: Tid, c: Connection, i: nat, j: nat, pc: Pc)
    requires Window(steps, t, c, i, j) && pc == At(Moment(w, steps, |steps| - 1), t)
    requires pc.PolicyFound? || pc.Settled?
    ensures var o := if pc.Settled? then pc.o
                     else var routes := Moment(w, steps, |steps| - 1).routes;
                       Decided(Override(PolicyVerdict(pc.p), Lookup(routes, pc.p.key)));
            At(After(w, steps), t).Settled? && At(After(w, steps), t).o == o
  {
    assert steps[..|steps|] == steps;
    MomentStep(w, steps, |steps| - 1);
  }

  /** The classification of the window is the decision of one moment between its reads. */
  ghost predicate OneMoment(w: World, steps: Schedule, t: Tid, c: Connection, i: nat) {
    && At(After(w, steps), t).Settled?
    && exists x :: i <= x < |steps| && At(After(w, steps), t).o == DecisionAt(Moment(w, steps, x), Some(c))
  }

  lemma SameTear(steps: Schedule, steps': Schedule, i: nat, j: nat, l: nat)
    requires SameShape(steps, steps')
    ensures Torn(steps, i, j, l) <==> Torn(steps', i, j, l)
  {
    forall a, b ensures TornPair(steps, i, j, l, a, b) <==> TornPair(steps', i, j, l, a, b) { }
  }

  lemma UntornIsOneMoment(w: World, steps: Schedule, t: Tid, c: Connection, i: nat, j: nat)
    requires Window(steps, t, c, i, j) && At(w, t).Idle? && !Torn(steps, i, j, |steps| - 1)
    ensures OneMoment(w, steps, t, c, i)
  {
    WindowSettles(w, steps, t, c, i, j);
    var x := UntornMoment(w, steps, i, j, |steps| - 1);
    assert WindowDecision(w, steps, c, i, j) == DecisionAt(Moment(w, steps, x), Some(c));
  }

  // ----- contents that show a tear -----

  /** What to write: up to the given moments the one content, from then on the other. */
  datatype Fill = Fill(switchAt: nat, policiesAt: nat, routesAt: nat, policies: seq<Policy>, policies': seq<Policy>,
                       routes: seq<Route>, routes': seq<Route>)

  function Written(f: Fill, q: nat, m: Move): Move {
    match m
    case WriteKillSwitch(_) =>
      WriteKillSwitch(KillSwitchConfig(KS_VERSION, if q < f.switchAt then KS_OFF else KS_BLOCK_ALL, 0))
    case WritePolicies(_) => WritePolicies(if q < f.policiesAt then f.policies else f.policies')
    case WriteRoutes(_) => WriteRoutes(if q < f.routesAt then f.routes else f.routes')
    case _ => m
  }

  function Filled(steps: Schedule, f: Fill): (r: Schedule)
    ensures SameShape(steps, r)
    ensures forall q :: 0 <= q < |steps| ==> r[q] == (steps[q].0, Written(f, q, steps[q].1))
  {
    seq(|steps|, q requires 0 <= q < |steps| => (steps[q].0, Written(f, q, steps[q].1)))
  }

  function AtRest(policies: seq<Policy>, routes: seq<Route>): World {
    World(KillSwitch(KS_OFF, 0), policies, routes, D.InitialDns(), C.ZERO_TELEMETRY, map[], [])
  }

  /** A driver at rest with the first contents of a fill. */
  function Before(f: Fill): World {
    AtRest(f.policies, f.routes)
  }

  lemma {:induction false} SwitchFilled(steps: Schedule, f: Fill, x: nat)
    requires x <= |steps|
    ensures var ks := Moment(Before(f), Filled(steps, f), x).ks;
            && (x <= f.switchAt ==> !Engaged(ks))
            && (f.switchAt < x && SwitchWrite(steps, f.switchAt) ==> Engaged(ks))
  {
    if 0 < x {
      SwitchFilled(steps, f, x - 1);
      MomentStep(Before(f), Filled(steps, f), x - 1);
    }
  }

  lemma {:induction false} PoliciesFilled(steps: Schedule, f: Fill, x: nat)
    requires x <= |steps|
    ensures var policies := Moment(Before(f), Filled(steps, f), x).policies;
            && (policies == f.policies || policies == f.policies')
            && (x <= f.policiesAt ==> policies == f.policies)
            && (f.policiesAt < x && PolicyWrite(steps, f.policiesAt) ==> policies == f.policies')
  {
    if 0 < x {
      PoliciesFilled(steps, f, x - 1);
      MomentStep(Before(f), Filled(steps, f), x - 1);
    }
  }

  lemma {:induction false} RoutesFilled(steps: Schedule, f: Fill, x: nat)
    requires x <= |steps|
    ensures var routes := Moment(Before(f), Filled(steps, f), x).routes;
            && (routes == f.routes || routes == f.routes')
            && (x <= f.routesAt ==> routes == f.routes)
            && (f.routesAt < x && RouteWrite(steps, f.routesAt) ==> routes == f.routes')
  {
    if 0 < x {
      RoutesFilled(steps, f, x - 1);
      MomentStep(Before(f), Filled(steps, f), x - 1);
    }
  }

  const ALLOW: Policy := Record(1, 7, PolicyBody(0, MATCH_NONE, "", 0))
  const DENY: Policy := Record(1, 7, PolicyBody(POLICY_BLOCK, MATCH_NONE, "", 0))
  const CLOSED: Route := Record(1, 7, RouteBody(ROUTE_BLOCKED, 0))

  /** Only an Allow policy without a route permits. */
  lemma FillDecisions(ks: KillSwitch, c: Connection)
    requires !Engaged(ks)
    ensures Decide(ks, [ALLOW], [], Some(c)) == Decided(Verdict(Permit, 0))
    ensures Decide(ks, [ALLOW], [CLOSED], Some(c)) == Decided(Verdict(Block, 0))
    ensures Decide(ks, [DENY], [CLOSED], Some(c)) == Decided(Verdict(Block, 0))
    ensures Decide(ks, [DENY], [], Some(c)) == Decided(Verdict(Block, 0))
  {
    assert Matches([ALLOW][0], c) && Matches([DENY][0], c);
    assert IndexOf([CLOSED], 7) == 0 by { assert [CLOSED][0].key == 7; }
  }

  /** Contents for each kind of pair: between the writes everything still blocks, and so it does after them. */
  function TearingFill(steps: Schedule, a: nat, b: nat): Fill {
    if SwitchWrite(steps, a) && PolicyWrite(steps, b) then Fill(a, b, 0, [DENY], [ALLOW], [], [])
    else if SwitchWrite(steps, a) then Fill(a, 0, b, [ALLOW], [ALLOW], [CLOSED], [])
    else Fill(|steps|, a, b, [ALLOW], [DENY], [CLOSED], [])
  }

  lemma EveryMomentBlocks(steps: Schedule, c: Connection, i: nat, j: nat, l: nat, a: nat, b: nat, x: nat)
    requires i < j < l < |steps| && TornPair(steps, i, j, l, a, b) && x <= |steps|
    ensures var f := TearingFill(steps, a, b);
            DecisionAt(Moment(Before(f), Filled(steps, f), x), Some(c)) == Decided(Verdict(Block, 0))
  {
    var f := TearingFill(steps, a, b);
    var s := Moment(Before(f), Filled(steps, f), x);
    SwitchFilled(steps, f, x);
    PoliciesFilled(steps, f, x);
    RoutesFilled(steps, f, x);
    if !Engaged(s.ks) { FillDecisions(s.ks, c); }
  }

  /** At its reads the classification meets the switch off, the Allow policy and no route. */
  lemma ReadContents(steps: Schedule, i: nat, j: nat, l: nat, a: nat, b: nat)
    requires i < j < l < |steps| && TornPair(steps, i, j, l, a, b)
    ensures var f := TearingFill(steps, a, b);
            && !Engaged(Moment(Before(f), Filled(steps, f), i).ks)
            && Moment(Before(f), Filled(steps, f), j).policies == [ALLOW]
            && Moment(Before(f), Filled(steps, f), l).routes == []
  {
    var f := TearingFill(steps, a, b);
    SwitchFilled(steps, f, i);
    PoliciesFilled(steps, f, j);
    RoutesFilled(steps, f, l);
  }

  lemma ReadsPermit(steps: Schedule, c: Connection, i: nat, j: nat, a: nat, b: nat)
    requires i < j < |steps| - 1 && TornPair(steps, i, j, |steps| - 1, a, b)
    ensures var f := TearingFill(steps, a, b);
            WindowDecision(Before(f), Filled(steps, f), c, i, j) == Decided(Verdict(Permit, 0))
  {
    var f := TearingFill(steps, a, b);
    ReadContents(steps, i, j, |steps| - 1, a, b);
    FillDecisions(Moment(Before(f), Filled(steps, f), i).ks, c);
  }

  /** The steps with which thread t counts and returns what it decided. */
  function Returned(steps: Schedule, t: Tid): Schedule {
    steps + [(t, CountTotal)] + [(t, CountBucket)] + [(t, Deliver)]
  }

  lemma ReturnedMoments(w: World, steps: Schedule, t: Tid, x: nat)
    requires x <= |steps| + 3
    ensures var s, y := Moment(w, Returned(steps, t), x), if x < |steps| then x else |steps|;
            && s.ks == Moment(w, steps, y).ks && s.policies == Moment(w, steps, y).policies
            && s.routes == Moment(w, steps, y).routes
  {
    var full, y := Returned(steps, t), if x < |steps| then x else |steps|;
    assert full[..y] == steps[..y];
    SwitchStays(w, full, y, x);
    PoliciesStay(w, full, y, x);
    RoutesStay(w, full, y, x);
  }

  /** Thread t permits the connection although every moment of the schedule blocks it. */
  ghost predicate PermittedThroughout(w: World, steps: Schedule, t: Tid, c: Connection) {
    var done := After(w, steps).done;
    && done != [] && done[|done| - 1].t == t && done[|done| - 1].o == Decided(Verdict(Permit, 0))
    && forall x :: 0 <= x <= |steps| ==> DecisionAt(Moment(w, steps, x), Some(c)) == Decided(Verdict(Block, 0))
  }

  /** With the contents for its pair of writes a tear permits what every single moment blocks. */
  lemma TearPermits(steps: Schedule, t: Tid, c: Connection, i: nat, j: nat, a: nat, b: nat)
    requires Window(steps, t, c, i, j) && TornPair(steps, i, j, |steps| - 1, a, b)
    ensures var f := TearingFill(steps, a, b);
            && At(After(Before(f), Filled(steps, f)), t).Settled?
            && At(After(Before(f), Filled(steps, f)), t).o == Decided(Verdict(Permit, 0))
            && PermittedThroughout(Before(f), Returned(Filled(steps, f), t), t, c)
  {
    var f := TearingFill(steps, a, b);
    var w, steps' := Before(f), Filled(steps, f);
    WindowSettles(w, steps', t, c, i, j);
    ReadsPermit(steps, c, i, j, a, b);
    SettledIsDelivered(w, steps', t, Verdict(Permit, 0), At(After(w, steps'), t).m);
    forall x | 0 <= x <= |Returned(steps', t)|
      ensures DecisionAt(Moment(w, Returned(steps', t), x), Some(c)) == Decided(Verdict(Block, 0))
    {
      ReturnedMoments(w, steps', t, x);
      EveryMomentBlocks(steps, c, i, j, |steps| - 1, a, b, if x < |steps| then x else |steps|);
    }
  }

  lemma TearIsNoMoment(steps: Schedule, t: Tid, c: Connection, i: nat, j: nat, a: nat, b: nat)
    requires Window(steps, t, c, i, j) && TornPair(steps, i, j, |steps| - 1, a, b)
    ensures var f := TearingFill(steps, a, b); !OneMoment(Before(f), Filled(steps, f), t, c, i)
  {
    var f := TearingFill(steps, a, b);
    TearPermits(steps, t, c, i, j, a, b);
    forall x | i <= x < |steps|
      ensures DecisionAt(Moment(Before(f), Filled(steps, f), x), Some(c)) == Decided(Verdict(Block, 0))
    {
      EveryMomentBlocks(steps, c, i, j, |steps| - 1, a, b, x);
    }
  }

  /**
   Whatever the driver's state and the contents written, the classification is the decision of one
   moment between its reads: this holds exactly when no pair of writes tears the reads.
   */
  lemma SingleMomentExactly(steps: Schedule, t: Tid, c: Connection, i: nat, j: nat)
    requires Window(steps, t, c, i, j)
    ensures (forall w, steps' :: At(w, t).Idle? && SameShape(steps, steps') ==> OneMoment(w, steps', t, c, i))
            <==> !Torn(steps, i, j, |steps| - 1)
  {
    if Torn(steps, i, j, |steps| - 1) {
      var a, b :| TornPair(steps, i, j, |steps| - 1, a, b);
      var f := TearingFill(steps, a, b);
      TearIsNoMoment(steps, t, c, i, j, a, b);
      assert At(Before(f), t).Idle? && SameShape(steps, Filled(steps, f));
    } else {
      forall w, steps' | At(w, t).Idle? && SameShape(steps, steps') ensures OneMoment(w, steps', t, c, i) {
        SameTear(steps, steps', i, j, |steps| - 1);
        UntornIsOneMoment(w, steps', t, c, i, j);
      }
    }
  }

  // ----- the tears, written out -----

  const BLOCK_ALL: KillSwitchConfig := KillSwitchConfig(KS_VERSION, KS_BLOCK_ALL, 0)

  /** Between the reads the kill switch is engaged, and only then the policy opened. */
  function SwitchThenPolicies(c: Connection): Schedule {
    [(1, Begin(Some(c))), (1, EvaluateKillSwitchNow), (2, WriteKillSwitch(BLOCK_ALL)), (2, WritePolicies([ALLOW])),
     (1, FindPolicy), (1, FindRoute)]
  }

  /** The kill switch is engaged, and only then the route opened. */
  function SwitchThenRoutes(c: Connection): Schedule {
    [(1, Begin(Some(c))), (1, EvaluateKillSwitchNow), (2, WriteKillSwitch(BLOCK_ALL)), (1, FindPolicy),
     (2, WriteRoutes([])), (1, FindRoute)]
  }

  /** The policy is closed, and only then the route opened; no kill switch is involved. */
  function PoliciesThenRoutes(c: Connection): Schedule {
    [(1, Begin(Some(c))), (1, EvaluateKillSwitchNow), (1, FindPolicy), (2, WritePolicies([DENY])),
     (2, WriteRoutes([])), (1, FindRoute)]
  }

  lemma TornDecision(c: Connection)
    ensures PermittedThroughout(AtRest([DENY], []), Returned(SwitchThenPolicies(c), 1), 1, c)
  {
    var steps := SwitchThenPolicies(c);
    var f := TearingFill(steps, 2, 3);
    assert Filled(steps, f) == steps && Before(f) == AtRest([DENY], []);
    TearPermits(steps, 1, c, 1, 4, 2, 3);
  }

  lemma TornSwitchDecision(c: Connection)
    ensures PermittedThroughout(AtRest([ALLOW], [CLOSED]), Returned(SwitchThenRoutes(c), 1), 1, c)
  {
    var steps := SwitchThenRoutes(c);
    var f := TearingFill(steps, 2, 4);
    assert Filled(steps, f) == steps && Before(f) == AtRest([ALLOW], [CLOSED]);
    TearPermits(steps, 1, c, 1, 3, 2, 4);
  }

  lemma TornRouteDecision(c: Connection)
    ensures PermittedThroughout(AtRest([ALLOW], [CLOSED]), Returned(PoliciesThenRoutes(c), 1), 1, c)
  {
    var steps := PoliciesThenRoutes(c);
    var f := TearingFill(steps, 3, 4);
    assert Filled(steps, f) == steps && Before(f) == AtRest([ALLOW], [CLOSED]);
    TearPermits(steps, 1, c, 1, 2, 3, 4);
  }
}

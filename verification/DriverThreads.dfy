/**
 Classifications, DNS queries and IPC records of any number of threads, interleaved with every
 kind of writer. Each locked read and each interlocked increment is one step; the latency sample
 and the maxima, which are not updated atomically, are left alone here.
 */
module DriverThreads {
  import opened Base
  import opened OrderedTable
  import opened Policies
  import opened Decisions
  import opened Counters
  import opened DriverModel

  type Tid = nat

  /** The moments at which a classification began and made its three locked reads. */
  datatype Moments = Moments(conn: Option<Connection>, began: nat, ksAt: nat, policyAt: nat, routeAt: nat)

  datatype Pc =
    | Idle
    | Classifying(conn: Option<Connection>, began: nat)
    | PastKillSwitch(conn: Option<Connection>, began: nat, ksAt: nat)
    | PolicyFound(conn: Option<Connection>, began: nat, ksAt: nat, policyAt: nat, p: Policy)
    | Settled(o: Outcome, m: Moments)   // decided, nothing counted yet
    | Counted(v: Verdict, m: Moments)   // between the two increments
    | Recorded(o: Outcome, m: Moments)  // counted, not yet returned
    | DnsPending                        // observed, telemetry increment still to come
    | IpcStarted(rejected: bool)
    | IpcRejecting                      // dispatch counted, reject still to come

  /** A classification a call returned: by whom, with what outcome, from which moments. */
  datatype Delivery = Delivery(t: Tid, o: Outcome, m: Moments)

  datatype World = World(ks: KillSwitch, policies: seq<Policy>, routes: seq<Route>, dns: Dns, tel: Telemetry,
                         pcs: map<Tid, Pc>, done: seq<Delivery>)

  datatype Move =
    | Begin(conn: Option<Connection>)
    | EvaluateKillSwitchNow
    | FindPolicy
    | FindRoute
    | CountTotal
    | CountBucket
    | CountError
    | Deliver
    | QueryDnsNow(port: U16, pid: U32)
    | CountDnsNow
    | BeginIpc(rejected: bool)
    | CountDispatch
    | CountReject
    | WritePolicies(policies: seq<Policy>)
    | WriteRoutes(routes: seq<Route>)
    | WriteKillSwitch(config: KillSwitchConfig)
    | WriteDns(dnsConfig: DnsConfig)

  function At(w: World, t: Tid): Pc {
    if t in w.pcs then w.pcs[t] else Idle
  }

  function Go(w: World, t: Tid, pc: Pc): World {
    w.(pcs := w.pcs[t := pc])
  }

  // ----- the steps; a thread that is not ready for a step does nothing -----

  function ClassifyMove(w: World, n: nat, t: Tid, m: Move): World {
    var pc := At(w, t);
    match m
    case Begin(conn) => if pc.Idle? then Go(w, t, Classifying(conn, n)) else w
    case EvaluateKillSwitchNow =>
      if !pc.Classifying? then w
      else (match EvaluateKillSwitch(w.ks, 0)
            case Some(a) => Go(w, t, Settled(Decided(Verdict(a, 0)), Moments(pc.conn, pc.began, n, n, n)))
            case None => Go(w, t, PastKillSwitch(pc.conn, pc.began, n)))
    case FindPolicy =>
      if !pc.PastKillSwitch? then w
      else if pc.conn.None? then
        Go(w, t, Settled(Failed(InvalidParameter), Moments(pc.conn, pc.began, pc.ksAt, n, n)))
      else (match FirstMatch(w.policies, pc.conn.value)
            case Some(p) => Go(w, t, PolicyFound(pc.conn, pc.began, pc.ksAt, n, p))
            case None => Go(w, t, Settled(Decided(Verdict(Permit, 0)), Moments(pc.conn, pc.began, pc.ksAt, n, n))))
    case FindRoute =>
      if !pc.PolicyFound? then w
      else Go(w, t, Settled(Decided(Override(PolicyVerdict(pc.p), Lookup(w.routes, pc.p.key))),
                            Moments(pc.conn, pc.began, pc.ksAt, pc.policyAt, n)))
    case _ => w
  }

  function CountMove(w: World, t: Tid, m: Move): World {
    var pc, c := At(w, t), w.tel.classify;
    match m
    case CountTotal =>
      if pc.Settled? && pc.o.Decided? then
        Go(w.(tel := w.tel.(classify := c.(total := Bump(c.total)))), t, Counted(pc.o.verdict, pc.m))
      else w
    case CountBucket =>
      if pc.Counted? then
        Go(w.(tel := w.tel.(classify := CountAction(c, pc.v.action))), t, Recorded(Decided(pc.v), pc.m))
      else w
    case CountError =>
      if pc.Settled? && pc.o.Failed? then
        Go(w.(tel := w.tel.(errors := Bump(w.tel.errors))), t, Recorded(pc.o, pc.m))
      else w
    case Deliver => if pc.Recorded? then Go(w.(done := w.done + [Delivery(t, pc.o, pc.m)]), t, Idle) else w
    case _ => w
  }

  ghost function RecordMove(w: World, t: Tid, m: Move): World {
    var pc, i := At(w, t), w.tel.ipc;
    match m
    case QueryDnsNow(port, pid) =>
      if !pc.Idle? then w
      else
        var k := ClassifyDns(w.dns.config, port, pid);
        var w' := w.(dns := w.dns.(stats := CountDns(w.dns.stats, k)));
        if k == ToObserve then Go(w', t, DnsPending) else w'
    case CountDnsNow =>
      if pc.DnsPending? then Go(w.(tel := w.tel.(dnsObserved := Bump(w.tel.dnsObserved))), t, Idle) else w
    case BeginIpc(rejected) => if pc.Idle? then Go(w, t, IpcStarted(rejected)) else w
    case CountDispatch =>
      if !pc.IpcStarted? then w
      else
        Go(w.(tel := w.tel.(ipc := i.(dispatches := Bump(i.dispatches)))), t,
           if pc.rejected then IpcRejecting else Idle)
    case CountReject =>
      if pc.IpcRejecting? then Go(w.(tel := w.tel.(ipc := i.(rejects := Bump(i.rejects)))), t, Idle) else w
    case _ => w
  }

  function WriteMove(w: World, m: Move): World {
    match m
    case WritePolicies(policies) => w.(policies := policies)
    case WriteRoutes(routes) => w.(routes := routes)
    case WriteKillSwitch(config) => w.(ks := SetKillSwitch(w.ks, Some(config)).0)
    case WriteDns(config) => w.(dns := SetDnsConfig(w.dns, Some(config)).0)
    case _ => w
  }

  ghost function Next(w: World, n: nat, t: Tid, m: Move): World {
    if m.Begin? || m.EvaluateKillSwitchNow? || m.FindPolicy? || m.FindRoute? then ClassifyMove(w, n, t, m)
    else if m.CountTotal? || m.CountBucket? || m.CountError? || m.Deliver? then CountMove(w, t, m)
    else if m.WritePolicies? || m.WriteRoutes? || m.WriteKillSwitch? || m.WriteDns? then WriteMove(w, m)
    else RecordMove(w, t, m)
  }

  /** The world after a schedule; the world before its i-th step is the one after its first i. */
  ghost function After(w: World, steps: seq<(Tid, Move)>): World {
    if steps == [] then w
    else Next(After(w, steps[..|steps| - 1]), |steps| - 1, steps[|steps| - 1].0, steps[|steps| - 1].1)
  }

  ghost function Moment(w: World, steps: seq<(Tid, Move)>, i: nat): World
    requires i <= |steps|
  {
    After(w, steps[..i])
  }

  // ----- every classification is one decision -----

  /** From b to end thread t is in one call: idle at b, where it begins with conn, and busy ever after. */
  ghost predicate InCall(w: World, steps: seq<(Tid, Move)>, t: Tid, conn: Option<Connection>, b: nat, end: nat) {
    && b < end <= |steps| && steps[b] == (t, Begin(conn)) && At(Moment(w, steps, b), t).Idle?
    && forall i :: b < i <= end ==> !At(Moment(w, steps, i), t).Idle?
  }

  /**
   The outcome is the pure decision over the three states that the thread's own reads saw, in
   order: the policies are read unless the kill switch decides, the routes if a policy was found.
   */
  ghost predicate Justified(w: World, steps: seq<(Tid, Move)>, t: Tid, o: Outcome, m: Moments) {
    && m.began < m.ksAt <= m.policyAt <= m.routeAt < |steps|
    && steps[m.ksAt] == (t, EvaluateKillSwitchNow)
    && (if m.policyAt == m.ksAt then Engaged(Moment(w, steps, m.ksAt).ks) && m.routeAt == m.ksAt
        else steps[m.policyAt] == (t, FindPolicy) && !Engaged(Moment(w, steps, m.ksAt).ks))
    && (m.policyAt < m.routeAt <==> m.ksAt < m.policyAt && m.conn.Some?
                                    && FirstMatch(Moment(w, steps, m.policyAt).policies, m.conn.value).Some?)
    && (m.policyAt < m.routeAt ==> steps[m.routeAt] == (t, FindRoute))
    && o == Decide(Moment(w, steps, m.ksAt).ks, Moment(w, steps, m.policyAt).policies,
                   Moment(w, steps, m.routeAt).routes, m.conn)
  }

  /** The call a thread is in, by its connection and the moment it began. */
  function CallOf(pc: Pc): Option<(Option<Connection>, nat)> {
    match pc
    case Classifying(conn, b) => Some((conn, b))
    case PastKillSwitch(conn, b, _) => Some((conn, b))
    case PolicyFound(conn, b, _, _, _) => Some((conn, b))
    case Settled(_, m) => Some((m.conn, m.began))
    case Counted(_, m) => Some((m.conn, m.began))
    case Recorded(_, m) => Some((m.conn, m.began))
    case _ => None
  }

  ghost predicate PcCalled(w: World, steps: seq<(Tid, Move)>, t: Tid) {
    var call := CallOf(At(After(w, steps), t));
    call.Some? ==> InCall(w, steps, t, call.value.0, call.value.1, |steps|)
  }

  ghost predicate PcJustified(w: World, steps: seq<(Tid, Move)>, t: Tid, pc: Pc) {
    match pc
    case PastKillSwitch(_, b, i) =>
      b < i < |steps| && steps[i] == (t, EvaluateKillSwitchNow) && !Engaged(Moment(w, steps, i).ks)
    case PolicyFound(conn, b, i, j, p) =>
      && b < i < j < |steps| && steps[i] == (t, EvaluateKillSwitchNow) && steps[j] == (t, FindPolicy)
      && !Engaged(Moment(w, steps, i).ks)
      && conn.Some? && FirstMatch(Moment(w, steps, j).policies, conn.value) == Some(p)
    case Settled(o, m) => Justified(w, steps, t, o, m)
    case Counted(v, m) => Justified(w, steps, t, Decided(v), m)
    case Recorded(o, m) => Justified(w, steps, t, o, m)
    case _ => true
  }

  /** The delivery, made after the earlier ones, is the return at moment d of the one call that decided it. */
  ghost predicate DeliveredAt(w: World, steps: seq<(Tid, Move)>, x: Delivery, earlier: seq<Delivery>, d: nat) {
    && x.m.routeAt < d < |steps| && steps[d] == (x.t, Deliver)
    && InCall(w, steps, x.t, x.m.conn, x.m.began, d) && Moment(w, steps, d).done == earlier
  }

  ghost predicate DeliveryOk(w: World, steps: seq<(Tid, Move)>, x: Delivery, earlier: seq<Delivery>) {
    Justified(w, steps, x.t, x.o, x.m) && exists d :: DeliveredAt(w, steps, x, earlier, d)
  }

  ghost predicate AllJustified(w: World, steps: seq<(Tid, Move)>) {
    var s := After(w, steps);
    && (forall t :: PcCalled(w, steps, t))
    && (forall t :: PcJustified(w, steps, t, At(s, t)))
    && (forall i :: 0 <= i < |s.done| ==> DeliveryOk(w, steps, s.done[i], s.done[..i]))
  }

  lemma SameMoments(w: World, p: seq<(Tid, Move)>, x: (Tid, Move))
    ensures forall i :: 0 <= i <= |p| ==> Moment(w, p + [x], i) == Moment(w, p, i)
    ensures Moment(w, p + [x], |p|) == After(w, p) && Moment(w, p + [x], |p| + 1) == After(w, p + [x])
    ensures After(w, p + [x]) == Next(After(w, p), |p|, x.0, x.1)
  {
    assert (p + [x])[..|p| + 1] == p + [x] && p[..|p|] == p;
    forall i | 0 <= i <= |p| ensures Moment(w, p + [x], i) == Moment(w, p, i) { assert (p + [x])[..i] == p[..i]; }
  }

  lemma InCallStays(w: World, p: seq<(Tid, Move)>, x: (Tid, Move), t: Tid, conn: Option<Connection>, b: nat, end: nat)
    requires InCall(w, p, t, conn, b, end)
    ensures InCall(w, p + [x], t, conn, b, end)
  {
    SameMoments(w, p, x);
  }

  lemma InCallGrows(w: World, p: seq<(Tid, Move)>, x: (Tid, Move), t: Tid, conn: Option<Connection>, b: nat)
    requires InCall(w, p, t, conn, b, |p|) && !At(After(w, p + [x]), t).Idle?
    ensures InCall(w, p + [x], t, conn, b, |p| + 1)
  {
    InCallStays(w, p, x, t, conn, b, |p|);
    SameMoments(w, p, x);
  }

  lemma InCallStarts(w: World, p: seq<(Tid, Move)>, t: Tid, conn: Option<Connection>)
    requires At(After(w, p), t).Idle?
    ensures InCall(w, p + [(t, Begin(conn))], t, conn, |p|, |p| + 1)
  {
    SameMoments(w, p, (t, Begin(conn)));
  }

  /** A step begins a call, goes on with the one the thread is in, or leaves it in none. */
  lemma CallAfter(w: World, n: nat, t: Tid, m: Move)
    ensures var call, call' := CallOf(At(w, t)), CallOf(At(Next(w, n, t, m), t));
            || call' == None || call' == call
            || (m.Begin? && At(w, t).Idle? && call' == Some((m.conn, n)))
  {
  }

  lemma CallsJustified(w: World, p: seq<(Tid, Move)>, x: (Tid, Move), t: Tid)
    requires PcCalled(w, p, t)
    ensures PcCalled(w, p + [x], t)
  {
    var s := After(w, p);
    var call, call' := CallOf(At(s, t)), CallOf(At(After(w, p + [x]), t));
    SameMoments(w, p, x);
    OthersUnmoved(s, |p|, x.0, x.1);
    CallAfter(s, |p|, x.0, x.1);
    if call'.Some? {
      if call' == call { InCallGrows(w, p, x, t, call.value.0, call.value.1); }
      else { InCallStarts(w, p, t, x.1.conn); }
    }
  }

  lemma PcStaysJustified(w: World, p: seq<(Tid, Move)>, x: (Tid, Move), t: Tid, pc: Pc)
    requires PcJustified(w, p, t, pc)
    ensures PcJustified(w, p + [x], t, pc)
  {
    SameMoments(w, p, x);
  }

  /** What a thread's counter must not anticipate: its reads and its beginning lie before the last step. */
  predicate Past(pc: Pc, n: nat) {
    match pc
    case Classifying(_, b) => b < n
    case PastKillSwitch(_, b, i) => b < i < n
    case PolicyFound(_, b, i, j, _) => b < i < j < n
    case _ => true
  }

  /** A locked read made at the last moment of the schedule. */
  lemma ReadJustified(w: World, steps: seq<(Tid, Move)>, s: World, t: Tid, m: Move)
    requires steps != [] && Moment(w, steps, |steps| - 1) == s && steps[|steps| - 1] == (t, m)
    requires PcJustified(w, steps, t, At(s, t)) && Past(At(s, t), |steps| - 1)
    ensures PcJustified(w, steps, t, At(ClassifyMove(s, |steps| - 1, t, m), t))
  {
  }

  lemma CountJustified(w: World, steps: seq<(Tid, Move)>, s: World, t: Tid, m: Move)
    requires PcJustified(w, steps, t, At(s, t))
    ensures PcJustified(w, steps, t, At(CountMove(s, t, m), t))
  {
  }

  lemma RecordJustified(w: World, steps: seq<(Tid, Move)>, s: World, t: Tid, m: Move)
    requires PcJustified(w, steps, t, At(s, t))
    ensures PcJustified(w, steps, t, At(RecordMove(s, t, m), t))
  {
  }

  lemma NextJustified(w: World, steps: seq<(Tid, Move)>, s: World, t: Tid, m: Move)
    requires steps != [] && Moment(w, steps, |steps| - 1) == s && steps[|steps| - 1] == (t, m)
    requires PcJustified(w, steps, t, At(s, t)) && Past(At(s, t), |steps| - 1)
    ensures PcJustified(w, steps, t, At(Next(s, |steps| - 1, t, m), t))
  {
    ReadJustified(w, steps, s, t, m);
    CountJustified(w, steps, s, t, m);
    RecordJustified(w, steps, s, t, m);
    assert At(WriteMove(s, m), t) == At(s, t);
  }

  lemma PcsJustified(w: World, p: seq<(Tid, Move)>, x: (Tid, Move), t: Tid)
    requires PcJustified(w, p, t, At(After(w, p), t)) && PcCalled(w, p, t)
    ensures PcJustified(w, p + [x], t, At(After(w, p + [x]), t))
  {
    SameMoments(w, p, x);
    OthersUnmoved(After(w, p), |p|, x.0, x.1);
    PcStaysJustified(w, p, x, t, At(After(w, p), t));
    if t == x.0 { NextJustified(w, p + [x], After(w, p), t, x.1); }
  }

  lemma DeliveryStays(w: World, p: seq<(Tid, Move)>, x: (Tid, Move), y: Delivery, earlier: seq<Delivery>)
    requires DeliveryOk(w, p, y, earlier)
    ensures DeliveryOk(w, p + [x], y, earlier)
  {
    var d :| DeliveredAt(w, p, y, earlier, d);
    SameMoments(w, p, x);
    InCallStays(w, p, x, y.t, y.m.conn, y.m.began, d);
    PcStaysJustified(w, p, x, y.t, Recorded(y.o, y.m));
    assert DeliveredAt(w, p + [x], y, earlier, d);
  }

  lemma DeliverJustified(w: World, p: seq<(Tid, Move)>, t: Tid, y: Delivery)
    requires PcCalled(w, p, t) && PcJustified(w, p, t, At(After(w, p), t))
    requires At(After(w, p), t) == Recorded(y.o, y.m) && y.t == t
    ensures DeliveryOk(w, p + [(t, Deliver)], y, After(w, p).done)
  {
    var x := (t, Deliver);
    SameMoments(w, p, x);
    InCallStays(w, p, x, t, y.m.conn, y.m.began, |p|);
    PcStaysJustified(w, p, x, t, Recorded(y.o, y.m));
    assert DeliveredAt(w, p + [x], y, After(w, p).done, |p|);
  }

  lemma DeliveriesJustified(w: World, p: seq<(Tid, Move)>, x: (Tid, Move), i: nat)
    requires AllJustified(w, p) && i < |After(w, p + [x]).done|
    ensures DeliveryOk(w, p + [x], After(w, p + [x]).done[i], After(w, p + [x]).done[..i])
  {
    var done, done' := After(w, p).done, After(w, p + [x]).done;
    SameMoments(w, p, x);
    DeliveredAfter(After(w, p), |p|, x.0, x.1);
    if i < |done| {
      assert done'[i] == done[i] && done'[..i] == done[..i];
      DeliveryStays(w, p, x, done[i], done[..i]);
    } else {
      assert done'[..i] == done;
      DeliverJustified(w, p, x.0, done'[i]);
    }
  }

  lemma {:induction false} ClassificationsJustified(w: World, steps: seq<(Tid, Move)>)
    requires w.pcs == map[] && w.done == []
    ensures AllJustified(w, steps)
  {
    if steps != [] {
      var p, x := steps[..|steps| - 1], steps[|steps| - 1];
      assert steps == p + [x];
      ClassificationsJustified(w, p);
      forall t ensures PcCalled(w, steps, t) { CallsJustified(w, p, x, t); }
      forall t ensures PcJustified(w, steps, t, At(After(w, steps), t)) { PcsJustified(w, p, x, t); }
      var done := After(w, steps).done;
      forall i | 0 <= i < |done| ensures DeliveryOk(w, steps, done[i], done[..i]) { DeliveriesJustified(w, p, x, i); }
    }
  }

  lemma OthersUnmoved(w: World, n: nat, t: Tid, m: Move)
    ensures forall u :: u != t ==> At(Next(w, n, t, m), u) == At(w, u)
  {
  }

  /**
   Every completed classification of every interleaving, whatever the writers do, was made in one
   call of one thread, from its Begin step with its connection to its Deliver step, and equals the
   pure decision over the kill switch, the policies and the routes at the three moments in between
   at which that thread read them; one that reads the kill switch while it is engaged is blocked.
   */
  lemma ConcurrentDecision(w: World, steps: seq<(Tid, Move)>, i: nat)
    requires w.pcs == map[] && w.done == [] && i < |After(w, steps).done|
    ensures var x := After(w, steps).done[i];
            && Justified(w, steps, x.t, x.o, x.m)
            && (exists d :: DeliveredAt(w, steps, x, After(w, steps).done[..i], d))
            && (Engaged(Moment(w, steps, x.m.ksAt).ks) ==> x.o == Decided(Verdict(Block, 0)))
  {
    ClassificationsJustified(w, steps);
    assert DeliveryOk(w, steps, After(w, steps).done[i], After(w, steps).done[..i]);
  }

  lemma KillSwitchStays(w: World, steps: seq<(Tid, Move)>, q: nat, k: nat)
    requires q <= k <= |steps| && forall i :: q <= i < k ==> !steps[i].1.WriteKillSwitch?
    ensures Moment(w, steps, k).ks == Moment(w, steps, q).ks
  {
    if q < k {
      KillSwitchStays(w, steps, q, k - 1);
      MomentStep(w, steps, k - 1);
    }
  }

  lemma MomentStep(w: World, steps: seq<(Tid, Move)>, k: nat)
    requires k < |steps|
    ensures Moment(w, steps, k + 1) == Next(Moment(w, steps, k), k, steps[k].0, steps[k].1)
    ensures !steps[k].1.WriteKillSwitch? ==> Moment(w, steps, k + 1).ks == Moment(w, steps, k).ks
    ensures !steps[k].1.WritePolicies? ==> Moment(w, steps, k + 1).policies == Moment(w, steps, k).policies
    ensures !steps[k].1.WriteRoutes? ==> Moment(w, steps, k + 1).routes == Moment(w, steps, k).routes
  {
    assert steps[..k + 1][..k] == steps[..k];
  }

  lemma EngagedFrom(w: World, steps: seq<(Tid, Move)>, q: nat, config: KillSwitchConfig, k: nat)
    requires q < k <= |steps| && steps[q].1 == WriteKillSwitch(config)
    requires config.version == KS_VERSION && config.mode in {KS_BLOCK_ALL, KS_ALLOW_VPN_ONLY}
    requires forall i :: q < i < k ==> !steps[i].1.WriteKillSwitch?
    ensures Engaged(Moment(w, steps, k).ks)
  {
    MomentStep(w, steps, q);
    KillSwitchStays(w, steps, q + 1, k);
  }

  /**
   Once a request for BlockAll or AllowVpnOnly has taken effect, every classification that reads
   the kill switch later, before it is written again, is blocked; in particular every one that
   begins later.
   */
  lemma BlockedOnceSet(w: World, steps: seq<(Tid, Move)>, q: nat, config: KillSwitchConfig, i: nat)
    requires w.pcs == map[] && w.done == [] && i < |After(w, steps).done|
    requires q < |steps| && steps[q].1 == WriteKillSwitch(config)
    requires config.version == KS_VERSION && config.mode in {KS_BLOCK_ALL, KS_ALLOW_VPN_ONLY}
    requires q < After(w, steps).done[i].m.ksAt
    requires forall k :: q < k < |steps| && k < After(w, steps).done[i].m.ksAt ==> !steps[k].1.WriteKillSwitch?
    ensures After(w, steps).done[i].o == Decided(Verdict(Block, 0))
  {
    ConcurrentDecision(w, steps, i);
    EngagedFrom(w, steps, q, config, After(w, steps).done[i].m.ksAt);
  }

  /**
   The read of the kill switch is the exact boundary. With the switch off until one request engages
   it, a classification that reads it after the request is blocked, and one that reads it before
   is decided as if there were no kill switch, however late it ends.
   */
  lemma BlockedExactlyFrom(w: World, steps: seq<(Tid, Move)>, q: nat, config: KillSwitchConfig, i: nat)
    requires w.pcs == map[] && w.done == [] && i < |After(w, steps).done| && !Engaged(w.ks)
    requires q < |steps| && steps[q].1 == WriteKillSwitch(config)
    requires config.version == KS_VERSION && config.mode in {KS_BLOCK_ALL, KS_ALLOW_VPN_ONLY}
    requires forall k :: 0 <= k < |steps| && k != q ==> !steps[k].1.WriteKillSwitch?
    ensures var x := After(w, steps).done[i];
            && x.m.policyAt <= x.m.routeAt < |steps|
            && x.o == if q < x.m.ksAt then Decided(Verdict(Block, 0))
                      else Decide(KillSwitch(KS_OFF, 0), Moment(w, steps, x.m.policyAt).policies,
                                  Moment(w, steps, x.m.routeAt).routes, x.m.conn)
  {
    ConcurrentDecision(w, steps, i);
    var x := After(w, steps).done[i];
    if q < x.m.ksAt {
      BlockedOnceSet(w, steps, q, config, i);
    } else {
      KillSwitchStays(w, steps, 0, x.m.ksAt);
      assert steps[..0] == [];
      EngagedBlocksAll(w.ks, Moment(w, steps, x.m.policyAt).policies, Moment(w, steps, x.m.routeAt).routes, x.m.conn);
    }
  }

  lemma AfterAppend(w: World, p: seq<(Tid, Move)>, t: Tid, m: Move)
    ensures After(w, p + [(t, m)]) == Next(After(w, p), |p|, t, m)
  {
    assert (p + [(t, m)])[..|p|] == p;
  }

  lemma SettledIsDelivered(w: World, p: seq<(Tid, Move)>, t: Tid, v: Verdict, m: Moments)
    requires At(After(w, p), t) == Settled(Decided(v), m)
    ensures var s := After(w, p + [(t, CountTotal)] + [(t, CountBucket)] + [(t, Deliver)]);
            s.ks == After(w, p).ks && s.done == After(w, p).done + [Delivery(t, Decided(v), m)]
  {
    AfterAppend(w, p, t, CountTotal);
    AfterAppend(w, p + [(t, CountTotal)], t, CountBucket);
    AfterAppend(w, p + [(t, CountTotal)] + [(t, CountBucket)], t, Deliver);
  }

  lemma PastKillSwitchInTwo(w: World, c: Connection)
    requires w.pcs == map[] && w.ks.mode == KS_OFF
    ensures var s := After(w, [(1, Begin(Some(c))), (1, EvaluateKillSwitchNow)]);
            At(s, 1) == PastKillSwitch(Some(c), 0, 1) && s.policies == w.policies && s.done == w.done
  {
    AfterAppend(w, [], 1, Begin(Some(c)));
    AfterAppend(w, [(1, Begin(Some(c)))], 1, EvaluateKillSwitchNow);
    assert [(1, Begin(Some(c)))] + [(1, EvaluateKillSwitchNow)] == [(1, Begin(Some(c))), (1, EvaluateKillSwitchNow)];
    assert [] + [(1, Begin(Some(c)))] == [(1, Begin(Some(c)))];
  }

  /** A classification already past its kill-switch read is not caught: this one is permitted after the request. */
  lemma InFlightPermitted(w: World, c: Connection) returns (steps: seq<(Tid, Move)>)
    requires w.pcs == map[] && w.done == [] && w.ks.mode == KS_OFF && w.policies == []
    ensures |steps| == 7 && steps[2] == (2, WriteKillSwitch(KillSwitchConfig(KS_VERSION, KS_BLOCK_ALL, 0)))
    ensures Engaged(After(w, steps).ks)
    ensures |After(w, steps).done| == 1 && After(w, steps).done[0].o == Decided(Verdict(Permit, 0))
  {
    var block := WriteKillSwitch(KillSwitchConfig(KS_VERSION, KS_BLOCK_ALL, 0));
    var p: seq<(Tid, Move)> := [(1, Begin(Some(c))), (1, EvaluateKillSwitchNow)];
    PastKillSwitchInTwo(w, c);
    AfterAppend(w, p, 2, block);
    AfterAppend(w, p + [(2, block)], 1, FindPolicy);
    SettledIsDelivered(w, p + [(2, block)] + [(1, FindPolicy)], 1, Verdict(Permit, 0), Moments(Some(c), 0, 1, 3, 3));
    steps := p + [(2, block)] + [(1, FindPolicy)] + [(1, CountTotal)] + [(1, CountBucket)] + [(1, Deliver)];
  }

  // ----- counters at every interleaving -----

  /** How often the threads of a schedule asked about port 53, and how often they took each counting step. */
  datatype Tallies = Tallies(queries: nat, disabled: nat, excluded: nat, observed: nat, dnsCounted: nat,
                             dispatches: nat, rejects: nat)

  predicate AsksDns(w: World, t: Tid, m: Move) {
    m.QueryDnsNow? && At(w, t).Idle?
  }

  function OneIf(b: bool): nat {
    if b then 1 else 0
  }

  /** The tallies with the step of t made in w; a query is one of port 53 whatever becomes of it. */
  ghost function Tally(y: Tallies, w: World, t: Tid, m: Move): Tallies {
    var k := if AsksDns(w, t, m) then ClassifyDns(w.dns.config, m.port, m.pid) else OtherPort;
    Tallies(y.queries + OneIf(AsksDns(w, t, m) && m.port == 53),
            y.disabled + OneIf(k == Disabled), y.excluded + OneIf(k == ExcludedPid), y.observed + OneIf(k == ToObserve),
            y.dnsCounted + OneIf(m.CountDnsNow? && At(w, t).DnsPending?),
            y.dispatches + OneIf(m.CountDispatch? && At(w, t).IpcStarted?),
            y.rejects + OneIf(m.CountReject? && At(w, t).IpcRejecting?))
  }

  ghost function TalliesOf(w: World, steps: seq<(Tid, Move)>): Tallies {
    if steps == [] then Tallies(0, 0, 0, 0, 0, 0, 0)
    else
      var p, x := steps[..|steps| - 1], steps[|steps| - 1];
      Tally(TalliesOf(w, p), After(w, p), x.0, x.1)
  }

  /** Every query about port 53 is of one of the three kinds, and queries about other ports of none. */
  lemma {:induction false} QueriesPartitioned(w: World, steps: seq<(Tid, Move)>)
    ensures var y := TalliesOf(w, steps); y.queries == y.disabled + y.excluded + y.observed
  {
    if steps != [] { QueriesPartitioned(w, steps[..|steps| - 1]); }
  }

  /** Where a thread stands between the increments, if it does. */
  datatype Mark = MCounted | MRecorded(a: Action) | MFailed | MDns | MReject

  function MarkOf(pc: Pc): Option<Mark> {
    match pc
    case Counted(_, _) => Some(MCounted)
    case Recorded(Decided(v), _) => Some(MRecorded(v.action))
    case Recorded(Failed(_), _) => Some(MFailed)
    case DnsPending => Some(MDns)
    case IpcRejecting => Some(MReject)
    case _ => None
  }

  ghost function StandingAt(pcs: map<Tid, Pc>, k: Mark): set<Tid> {
    set t | t in pcs && MarkOf(pcs[t]) == Some(k)
  }

  /** The number of threads that stand at a mark. */
  ghost function Standing(pcs: map<Tid, Pc>, k: Mark): nat {
    |StandingAt(pcs, k)|
  }

  /** Completed classifications with an action, and those that failed. */
  ghost function Completed(done: seq<Delivery>, a: Action): nat {
    if done == [] then 0
    else Completed(done[..|done| - 1], a)
         + if done[|done| - 1].o.Decided? && done[|done| - 1].o.verdict.action == a then 1 else 0
  }

  ghost function CompletedFailed(done: seq<Delivery>): nat {
    if done == [] then 0
    else CompletedFailed(done[..|done| - 1]) + if done[|done| - 1].o.Failed? then 1 else 0
  }

  lemma StandingElsewhere(pcs: map<Tid, Pc>, t: Tid, pc: Pc, k: Mark)
    ensures StandingAt(pcs[t := pc], k) - {t} == StandingAt(pcs, k) - {t}
    ensures t in StandingAt(pcs[t := pc], k) <==> MarkOf(pc) == Some(k)
  {
  }

  lemma SizeWithout(ts: set<Tid>, t: Tid)
    ensures |ts| == |ts - {t}| + if t in ts then 1 else 0
  {
    if t in ts { assert ts == (ts - {t}) + {t}; } else { assert ts - {t} == ts; }
  }

  lemma StandingMoves(pcs: map<Tid, Pc>, t: Tid, pc: Pc, k: Mark)
    ensures Standing(pcs[t := pc], k)
            == Standing(pcs, k) - (if t in pcs && MarkOf(pcs[t]) == Some(k) then 1 else 0)
               + (if MarkOf(pc) == Some(k) then 1 else 0)
  {
    StandingElsewhere(pcs, t, pc, k);
    SizeWithout(StandingAt(pcs, k), t);
    SizeWithout(StandingAt(pcs[t := pc], k), t);
  }

  /** Classifications with the action whose bucket has been incremented. */
  ghost function Bucketed(w: World, a: Action): nat {
    Completed(w.done, a) + Standing(w.pcs, MRecorded(a))
  }

  ghost function AllBucketed(w: World): nat {
    Bucketed(w, Block) + Bucketed(w, Steer) + Bucketed(w, Permit) + Bucketed(w, Observe)
  }

  ghost predicate BucketOk(w: World, a: Action) {
    Bucket(w.tel.classify, a) == Low64(Bucketed(w, a))
  }

  ghost predicate TotalOk(w: World) {
    w.tel.classify.total == Low64(AllBucketed(w) + Standing(w.pcs, MCounted))
  }

  ghost predicate ErrorsOk(w: World) {
    w.tel.errors == Low64(FailedSoFar(w))
  }

  ghost predicate DnsOk(w: World, y: Tallies) {
    && w.dns.stats == DnsStats(Low64(y.observed), Low64(y.excluded), Low64(y.disabled))
    && w.tel.dnsObserved == Low64(y.dnsCounted) && y.observed == y.dnsCounted + Standing(w.pcs, MDns)
  }

  ghost predicate IpcOk(w: World, y: Tallies) {
    && w.tel.ipc.dispatches == Low64(y.dispatches) && w.tel.ipc.rejects == Low64(y.rejects)
    && y.rejects + Standing(w.pcs, MReject) <= y.dispatches
  }

  /** How one step changes the number of threads at a mark and the completed classifications. */
  lemma StandingAfter(w: World, n: nat, t: Tid, m: Move, k: Mark)
    ensures var w' := Next(w, n, t, m);
            Standing(w'.pcs, k) == Standing(w.pcs, k)
              - (if MarkOf(At(w, t)) == Some(k) then 1 else 0) + (if MarkOf(At(w', t)) == Some(k) then 1 else 0)
  {
    var w' := Next(w, n, t, m);
    if w'.pcs != w.pcs {
      StandingMoves(w.pcs, t, w'.pcs[t], k);
      assert w'.pcs == w.pcs[t := w'.pcs[t]];
    }
  }

  lemma DeliveredAfter(w: World, n: nat, t: Tid, m: Move)
    ensures var w', pc := Next(w, n, t, m), At(w, t);
            if m.Deliver? && pc.Recorded? then w'.done == w.done + [Delivery(t, pc.o, pc.m)] && At(w', t) == Idle
            else w'.done == w.done
  {
  }

  lemma CompletedPush(done: seq<Delivery>, x: Delivery, a: Action)
    ensures Completed(done + [x], a) == Completed(done, a) + if x.o.Decided? && x.o.verdict.action == a then 1 else 0
    ensures CompletedFailed(done + [x]) == CompletedFailed(done) + if x.o.Failed? then 1 else 0
  {
    assert (done + [x])[..|done|] == done;
  }

  /** Returning moves a classification from the threads to the completed ones; only the bucket step adds one. */
  lemma BucketedAfter(w: World, n: nat, t: Tid, m: Move, a: Action)
    ensures Bucketed(Next(w, n, t, m), a) ==
            Bucketed(w, a) + if m.CountBucket? && At(w, t).Counted? && At(w, t).v.action == a then 1 else 0
  {
    StandingAfter(w, n, t, m, MRecorded(a));
    DeliveredAfter(w, n, t, m);
    if m.Deliver? && At(w, t).Recorded? { CompletedPush(w.done, Delivery(t, At(w, t).o, At(w, t).m), a); }
  }

  ghost function FailedSoFar(w: World): nat {
    CompletedFailed(w.done) + Standing(w.pcs, MFailed)
  }

  /** A failed classification stands at its mark from its error increment until it is delivered. */
  lemma FailedMarks(w: World, n: nat, t: Tid, m: Move)
    ensures MarkOf(At(w, t)) == Some(MFailed) && !m.Deliver? ==> At(Next(w, n, t, m), t) == At(w, t)
    ensures MarkOf(At(w, t)) != Some(MFailed) ==>
              (MarkOf(At(Next(w, n, t, m), t)) == Some(MFailed) <==> CountsError(w, t, m))
  {
  }

  lemma FailedAfter(w: World, n: nat, t: Tid, m: Move)
    ensures FailedSoFar(Next(w, n, t, m)) == FailedSoFar(w) + if CountsError(w, t, m) then 1 else 0
  {
    StandingAfter(w, n, t, m, MFailed);
    DeliveredAfter(w, n, t, m);
    FailedMarks(w, n, t, m);
    if m.Deliver? && At(w, t).Recorded? { CompletedPush(w.done, Delivery(t, At(w, t).o, At(w, t).m), Permit); }
  }

  lemma BucketWordAfter(w: World, n: nat, t: Tid, m: Move, a: Action)
    ensures Bucket(Next(w, n, t, m).tel.classify, a) ==
            if m.CountBucket? && At(w, t).Counted? && At(w, t).v.action == a then Bump(Bucket(w.tel.classify, a))
            else Bucket(w.tel.classify, a)
  {
  }

  lemma BucketKept(w: World, n: nat, t: Tid, m: Move, a: Action)
    requires BucketOk(w, a)
    ensures BucketOk(Next(w, n, t, m), a)
  {
    BucketedAfter(w, n, t, m, a);
    BucketWordAfter(w, n, t, m, a);
    WordFollows(Bucket(w.tel.classify, a), Bucketed(w, a),
                m.CountBucket? && At(w, t).Counted? && At(w, t).v.action == a);
  }

  lemma AllBucketedAfter(w: World, n: nat, t: Tid, m: Move)
    ensures AllBucketed(Next(w, n, t, m)) == AllBucketed(w) + if m.CountBucket? && At(w, t).Counted? then 1 else 0
  {
    BucketedAfter(w, n, t, m, Block);
    BucketedAfter(w, n, t, m, Steer);
    BucketedAfter(w, n, t, m, Permit);
    BucketedAfter(w, n, t, m, Observe);
  }

  /** A thread enters the gap between the increments by the first of them. */
  predicate EntersGap(w: World, t: Tid, m: Move) {
    m.CountTotal? && At(w, t).Settled? && At(w, t).o.Decided?
  }

  predicate CountsError(w: World, t: Tid, m: Move) {
    m.CountError? && At(w, t).Settled? && At(w, t).o.Failed?
  }

  lemma ClassifyWordsAfter(w: World, n: nat, t: Tid, m: Move)
    ensures var w' := Next(w, n, t, m);
            && w'.tel.classify.total
               == (if EntersGap(w, t, m) then Bump(w.tel.classify.total) else w.tel.classify.total)
            && w'.tel.errors == (if CountsError(w, t, m) then Bump(w.tel.errors) else w.tel.errors)
  {
  }

  /** The counted classifications grow when a thread enters the gap and stay when it leaves. */
  lemma GapAfter(w: World, n: nat, t: Tid, m: Move)
    ensures Standing(Next(w, n, t, m).pcs, MCounted) ==
            Standing(w.pcs, MCounted) + (if EntersGap(w, t, m) then 1 else 0)
              - (if m.CountBucket? && At(w, t).Counted? then 1 else 0)
  {
    StandingAfter(w, n, t, m, MCounted);
  }

  lemma TotalKept(w: World, n: nat, t: Tid, m: Move)
    requires TotalOk(w)
    ensures TotalOk(Next(w, n, t, m))
  {
    AllBucketedAfter(w, n, t, m);
    GapAfter(w, n, t, m);
    ClassifyWordsAfter(w, n, t, m);
    WordFollows(w.tel.classify.total, AllBucketed(w) + Standing(w.pcs, MCounted), EntersGap(w, t, m));
  }

  lemma ErrorsKept(w: World, n: nat, t: Tid, m: Move)
    requires ErrorsOk(w)
    ensures ErrorsOk(Next(w, n, t, m))
  {
    FailedAfter(w, n, t, m);
    ClassifyWordsAfter(w, n, t, m);
    WordFollows(w.tel.errors, FailedSoFar(w), CountsError(w, t, m));
  }

  lemma DnsAfter(w: World, n: nat, t: Tid, m: Move)
    ensures var w' := Next(w, n, t, m);
            if AsksDns(w, t, m) then
              var k := ClassifyDns(w.dns.config, m.port, m.pid);
              && w'.dns.stats == CountDns(w.dns.stats, k) && w'.tel.dnsObserved == w.tel.dnsObserved
              && MarkOf(At(w', t)) == if k == ToObserve then Some(MDns) else None
            else if m.CountDnsNow? && At(w, t).DnsPending? then
              && w'.dns.stats == w.dns.stats && w'.tel.dnsObserved == Bump(w.tel.dnsObserved)
              && MarkOf(At(w', t)) == None
            else
              && w'.dns.stats == w.dns.stats && w'.tel.dnsObserved == w.tel.dnsObserved
              && (MarkOf(At(w', t)) == Some(MDns) <==> MarkOf(At(w, t)) == Some(MDns))
  {
  }

  lemma DnsStatsKept(w: World, y: Tallies, n: nat, t: Tid, m: Move)
    requires w.dns.stats == DnsStats(Low64(y.observed), Low64(y.excluded), Low64(y.disabled))
    ensures var y' := Tally(y, w, t, m);
            Next(w, n, t, m).dns.stats == DnsStats(Low64(y'.observed), Low64(y'.excluded), Low64(y'.disabled))
  {
    DnsAfter(w, n, t, m);
    if AsksDns(w, t, m) {
      CountDnsWords(y.observed, y.excluded, y.disabled, ClassifyDns(w.dns.config, m.port, m.pid));
    }
  }

  lemma ObservedKept(w: World, y: Tallies, n: nat, t: Tid, m: Move)
    requires w.tel.dnsObserved == Low64(y.dnsCounted) && y.observed == y.dnsCounted + Standing(w.pcs, MDns)
    ensures var w', y' := Next(w, n, t, m), Tally(y, w, t, m);
            w'.tel.dnsObserved == Low64(y'.dnsCounted) && y'.observed == y'.dnsCounted + Standing(w'.pcs, MDns)
  {
    StandingAfter(w, n, t, m, MDns);
    DnsAfter(w, n, t, m);
    WordFollows(w.tel.dnsObserved, y.dnsCounted, m.CountDnsNow? && At(w, t).DnsPending?);
  }

  lemma DnsKept(w: World, y: Tallies, n: nat, t: Tid, m: Move)
    requires DnsOk(w, y)
    ensures DnsOk(Next(w, n, t, m), Tally(y, w, t, m))
  {
    DnsStatsKept(w, y, n, t, m);
    ObservedKept(w, y, n, t, m);
  }

  lemma IpcAfter(w: World, n: nat, t: Tid, m: Move)
    ensures var w', i := Next(w, n, t, m), w.tel.ipc;
            if m.CountDispatch? && At(w, t).IpcStarted? then
              w'.tel.ipc == i.(dispatches := Bump(i.dispatches))
            else if m.CountReject? && At(w, t).IpcRejecting? then
              w'.tel.ipc == i.(rejects := Bump(i.rejects)) && MarkOf(At(w', t)) == None
            else
              w'.tel.ipc == i && (MarkOf(At(w', t)) == Some(MReject) <==> MarkOf(At(w, t)) == Some(MReject))
  {
  }

  lemma IpcKept(w: World, y: Tallies, n: nat, t: Tid, m: Move)
    requires IpcOk(w, y)
    ensures IpcOk(Next(w, n, t, m), Tally(y, w, t, m))
  {
    StandingAfter(w, n, t, m, MReject);
    IpcAfter(w, n, t, m);
    WordFollows(w.tel.ipc.dispatches, y.dispatches, m.CountDispatch? && At(w, t).IpcStarted?);
    WordFollows(w.tel.ipc.rejects, y.rejects, m.CountReject? && At(w, t).IpcRejecting?);
  }

  ghost predicate Fresh(w: World) {
    && w.pcs == map[] && w.done == [] && w.tel == ZERO_TELEMETRY && w.dns.stats == DnsStats(0, 0, 0)
  }

  ghost predicate CountersOk(w: World, y: Tallies) {
    && TotalOk(w) && ErrorsOk(w) && DnsOk(w, y) && IpcOk(w, y)
    && BucketOk(w, Block) && BucketOk(w, Steer) && BucketOk(w, Permit) && BucketOk(w, Observe)
  }

  lemma NextKeepsCounters(w: World, y: Tallies, n: nat, t: Tid, m: Move)
    requires CountersOk(w, y)
    ensures CountersOk(Next(w, n, t, m), Tally(y, w, t, m))
  {
    TotalKept(w, n, t, m);
    ErrorsKept(w, n, t, m);
    DnsKept(w, y, n, t, m);
    IpcKept(w, y, n, t, m);
    BucketKept(w, n, t, m, Block);
    BucketKept(w, n, t, m, Steer);
    BucketKept(w, n, t, m, Permit);
    BucketKept(w, n, t, m, Observe);
  }

  lemma {:induction false} CountersKept(w: World, steps: seq<(Tid, Move)>)
    requires Fresh(w)
    ensures CountersOk(After(w, steps), TalliesOf(w, steps))
  {
    if steps == [] {
      StandingNone(w.pcs);
    } else {
      var p, x := steps[..|steps| - 1], steps[|steps| - 1];
      CountersKept(w, p);
      NextKeepsCounters(After(w, p), TalliesOf(w, p), |p|, x.0, x.1);
    }
  }

  lemma StandingNone(pcs: map<Tid, Pc>)
    requires forall t :: t in pcs ==> MarkOf(pcs[t]) == None
    ensures forall k :: Standing(pcs, k) == 0
  {
    forall k ensures Standing(pcs, k) == 0 {
      assert StandingAt(pcs, k) == {};
    }
  }

  /**
   In 64-bit words: the classification total is the four buckets plus the threads between the two
   increments; the three DNS statistics together are the port-53 queries, each in the one its
   configuration called for, and the observed ones are the telemetry count plus the threads
   between lock release and increment. While fewer than 2^64 requests were counted, rejects never
   exceed dispatches.
   */
  ghost predicate CountersAgree(s: World, y: Tallies) {
    var c, st := s.tel.classify, s.dns.stats;
    && c.total == Add64(Add64(Add64(c.blocked, c.steered), Add64(c.permitted, c.observed)),
                        Low64(Standing(s.pcs, MCounted)))
    && st.observed == Add64(s.tel.dnsObserved, Low64(Standing(s.pcs, MDns)))
    && st == DnsStats(Low64(y.observed), Low64(y.excluded), Low64(y.disabled))
    && Low64(y.queries) == Add64(Add64(st.skippedDisabled, st.skippedExcluded), st.observed)
    && s.tel.ipc.dispatches == Low64(y.dispatches) && s.tel.ipc.rejects == Low64(y.rejects)
    && (y.dispatches < TWO64 ==> s.tel.ipc.rejects <= s.tel.ipc.dispatches)
  }

  /** The counters agree with each other and with the queries the schedule made, at every interleaving. */
  lemma CountersAtEveryInterleaving(w: World, steps: seq<(Tid, Move)>)
    requires Fresh(w)
    ensures CountersAgree(After(w, steps), TalliesOf(w, steps))
  {
    CountersKept(w, steps);
    QueriesPartitioned(w, steps);
    CountersInWords(After(w, steps), TalliesOf(w, steps));
  }

  lemma CountersInWords(s: World, y: Tallies)
    requires CountersOk(s, y) && y.queries == y.disabled + y.excluded + y.observed
    ensures CountersAgree(s, y)
  {
    TotalByBuckets(s, y);
    DnsByTelemetry(s, y);
  }

  lemma TotalByBuckets(s: World, y: Tallies)
    requires CountersOk(s, y)
    ensures var c := s.tel.classify;
            c.total == Add64(Add64(Add64(c.blocked, c.steered), Add64(c.permitted, c.observed)),
                             Low64(Standing(s.pcs, MCounted)))
  {
    TotalInWords(Bucketed(s, Block), Bucketed(s, Steer), Bucketed(s, Permit), Bucketed(s, Observe),
                 Standing(s.pcs, MCounted));
  }

  lemma DnsByTelemetry(s: World, y: Tallies)
    requires DnsOk(s, y)
    ensures s.dns.stats.observed == Add64(s.tel.dnsObserved, Low64(Standing(s.pcs, MDns)))
    ensures Low64(y.disabled + y.excluded + y.observed) ==
            Add64(Add64(s.dns.stats.skippedDisabled, s.dns.stats.skippedExcluded), s.dns.stats.observed)
  {
    Low64Sum(y.dnsCounted, Standing(s.pcs, MDns));
    Low64Sum(y.disabled, y.excluded);
    Low64Sum(y.disabled + y.excluded, y.observed);
  }

  lemma TotalInWords(a: nat, b: nat, c: nat, d: nat, e: nat)
    ensures Low64(a + b + c + d + e) == Add64(Add64(Add64(Low64(a), Low64(b)), Add64(Low64(c), Low64(d))), Low64(e))
  {
    Low64Sum(a, b);
    Low64Sum(c, d);
    Low64Sum(a + b, c + d);
    Low64Sum(a + b + c + d, e);
  }

  /**
   When no thread is under way, the buckets are the completed classifications by action, and the
   total and the error count together account for all of them.
   */
  lemma CountersAtQuiescence(w: World, steps: seq<(Tid, Move)>)
    requires Fresh(w) && forall t :: t in After(w, steps).pcs ==> After(w, steps).pcs[t] == Idle
    ensures var s := After(w, steps);
            && (forall a :: Bucket(s.tel.classify, a) == Low64(Completed(s.done, a)))
            && Low64(|s.done|) == Add64(s.tel.classify.total, s.tel.errors)
            && s.dns.stats.observed == s.tel.dnsObserved
  {
    CountersKept(w, steps);
    QuietCounters(After(w, steps), TalliesOf(w, steps));
  }

  lemma QuietCounters(s: World, y: Tallies)
    requires CountersOk(s, y) && forall t :: t in s.pcs ==> s.pcs[t] == Idle
    ensures forall a :: Bucket(s.tel.classify, a) == Low64(Completed(s.done, a))
    ensures Low64(|s.done|) == Add64(s.tel.classify.total, s.tel.errors)
    ensures s.dns.stats.observed == s.tel.dnsObserved
  {
    StandingNone(s.pcs);
    QuietBuckets(s, y);
    CompletedPartition(s.done);
    Low64Sum(AllBucketed(s), CompletedFailed(s.done));
  }

  lemma QuietBuckets(s: World, y: Tallies)
    requires CountersOk(s, y) && forall k :: Standing(s.pcs, k) == 0
    ensures forall a ::
              Bucketed(s, a) == Completed(s.done, a) && Bucket(s.tel.classify, a) == Low64(Completed(s.done, a))
  {
    forall a
      ensures Bucketed(s, a) == Completed(s.done, a) && Bucket(s.tel.classify, a) == Low64(Completed(s.done, a))
    {
      match a case Block => case Steer => case Permit => case Observe =>
    }
  }

  lemma {:induction false} CompletedPartition(done: seq<Delivery>)
    ensures |done| == Completed(done, Block) + Completed(done, Steer) + Completed(done, Permit)
                      + Completed(done, Observe) + CompletedFailed(done)
  {
    if done != [] { CompletedPartition(done[..|done| - 1]); }
  }
}

/**
 Sync beside other threads. In exclusive schedules a running Sync is the only writer: the lookups
 of other threads see the old table or the fold of a growing prefix of the payload, and no entry
 is lost. In schedules that are not exclusive a Set can slip between the drain and the
 re-initialisation.
 */
module SyncThreads {
  import opened Base
  import opened OrderedTable
  import opened TableThreads
  import P = Policies

  /** How many payload records the Sync has set; -1 before the drain. */
  function Progress<V>(pc: Pc<V>): int {
    match pc
    case SyncCleared(_) => 0
    case SyncAt(_, i) => i
    case SyncHolding(_, i, _) => i
    case SyncReturning(_, i, _, status) => if status.Ok() then i + 1 else i
    case _ => -1
  }

  /** No thread but t is writing. */
  ghost predicate Alone<V>(s: System<V>, t: Tid) {
    forall u :: u in s.pcs && u != t ==> !Writing(s.pcs[u])
  }

  /** From the drain on, the table is the fold of the payload records set so far. */
  ghost predicate OnPrefix<V>(s: System<V>, pc: Pc<V>)
    requires Walkable(s.pool, s.list)
  {
    Syncing(pc) ==>
      && Progress(pc) <= |pc.rs|
      && (0 <= Progress(pc) ==> Contents(s.pool, s.list) == Fold(pc.rs[..Progress(pc)]))
  }

  ghost predicate SyncOk<V>(s: System<V>)
    requires Walkable(s.pool, s.list)
  {
    forall t :: t in s.pcs && Syncing(s.pcs[t]) ==> Alone(s, t) && OnPrefix(s, s.pcs[t])
  }

  // ----- one step -----

  lemma OnlyOwnPc<V>(s: System<V>, t: Tid, a: Action<V>)
    requires Enabled(s, t, a)
    ensures Exec(s, t, a).pcs == s.pcs[t := At(Exec(s, t, a), t)]
  {
    if a.Lock? {
      assert Walkable(s.pool, s.list) by { InReach(s, t); }
      LockOwnPc(s, t);
    }
  }

  lemma InReach<V>(s: System<V>, t: Tid)
    requires Enabled(s, t, Lock)
    ensures Walkable(s.pool, s.list)
  {
    forall i | 0 <= i < |s.list| ensures s.list[i] in s.pool { assert s.list[i] in Touched(s, t, Lock); }
  }

  lemma LockOwnPc<V>(s: System<V>, t: Tid)
    requires Walkable(s.pool, s.list) && !At(s, t).Idle?
    ensures LockStep(s, t).pcs == s.pcs[t := At(LockStep(s, t), t)]
  {
    match At(s, t)
    case SetHolding(r, e) => SetOwnPc(s, t, r, e);
    case SyncHolding(rs, i, e) => if i < |rs| { SetOwnPc(s, t, rs[i], e); }
    case RemoveCalled(_) =>
    case LookupCalled =>
    case SyncCalled(_) =>
    case _ =>
  }

  lemma SetOwnPc<V>(s: System<V>, t: Tid, r: Record<V>, e: Addr)
    requires Walkable(s.pool, s.list)
    ensures LockSet(s, t, r, e).pcs == s.pcs[t := At(LockSet(s, t, r, e), t)]
  {
  }

  lemma SameContents<V>(s: System<V>, s': System<V>)
    requires Inv(s) && Inv(s') && s'.log == s.log
    ensures Contents(s'.pool, s'.list) == Contents(s.pool, s.list)
  {
  }

  /** A reader's step, or the start of a call, leaves the table alone. */
  lemma ReaderStep<V>(s: System<V>, t: Tid, a: Action<V>)
    requires Enabled(s, t, a) && !Writing(At(s, t))
    ensures Exec(s, t, a).pool == s.pool && Exec(s, t, a).list == s.list
    ensures Writing(At(Exec(s, t, a), t)) ==> a.Call? && At(Exec(s, t, a), t) == StartPc(a.call, s.limit)
  {
  }

  /** The drain and the re-initialisation leave the empty prefix. */
  lemma EmptyPrefix<V>(s: System<V>, pc: Pc<V>)
    requires s.list == [] && (pc.SyncCleared? || (pc.SyncAt? && pc.i == 0))
    ensures Walkable(s.pool, s.list) && OnPrefix(s, pc)
  {
    assert pc.rs[..0] == [] && Contents(s.pool, s.list) == [];
  }

  /** Allocation and free leave the Sync's records as they are. */
  lemma OwnPoolStep<V>(s: System<V>, t: Tid, a: Action<V>)
    requires Inv(s) && Enabled(s, t, a) && Inv(Exec(s, t, a)) && OnPrefix(s, At(s, t)) && (a.Allocate? || a.FreeEntry?)
    requires Syncing(At(s, t)) && Syncing(At(Exec(s, t, a), t))
    ensures OnPrefix(Exec(s, t, a), At(Exec(s, t, a), t))
  {
    SameContents(s, Exec(s, t, a));
  }

  /** A step that sets no record leaves the Sync where it is. */
  lemma OwnQuietStep<V>(s: System<V>, t: Tid, a: Action<V>)
    requires Inv(s) && Enabled(s, t, a) && Inv(Exec(s, t, a)) && OnPrefix(s, At(s, t))
    requires Syncing(At(s, t)) && Syncing(At(Exec(s, t, a), t)) && !(a.Lock? && At(s, t).SyncHolding?)
    ensures OnPrefix(Exec(s, t, a), At(Exec(s, t, a), t))
  {
    if a.Allocate? || a.FreeEntry? {
      OwnPoolStep(s, t, a);
    } else {
      EmptyPrefix(Exec(s, t, a), At(Exec(s, t, a), t));
    }
  }

  /** A table that was on the prefix is on the longer one once the Set of the next record is done. */
  lemma PrefixGrows<V>(s': System<V>, pc: Pc<V>, linked: bool)
    requires Walkable(s'.pool, s'.list) && pc.SyncHolding? && pc.i < |pc.rs| && Acceptable(Some(pc.rs[pc.i]))
    requires var (c', status) := SetResult(Fold(pc.rs[..pc.i]), Some(pc.rs[pc.i]), true);
             Contents(s'.pool, s'.list) == c' && (linked ==> status.Success?)
    ensures var status := SetResult(Fold(pc.rs[..pc.i]), Some(pc.rs[pc.i]), true).1;
            OnPrefix(s', AfterSet(pc, linked, status))
  {
    FoldStep(pc.rs, pc.i);
  }

  /** The locked region of a Sync that installs its record. */
  lemma OwnInstallStep<V>(s: System<V>, t: Tid)
    requires Inv(s) && Enabled(s, t, Lock) && At(s, t).SyncHolding? && Inv(Exec(s, t, Lock)) && OnPrefix(s, At(s, t))
    ensures OnPrefix(Exec(s, t, Lock), At(Exec(s, t, Lock), t))
  {
    var pc, s', c := At(s, t), Exec(s, t, Lock), Contents(s.pool, s.list);
    assert HeldClause(s, pc) && Traced(t, s.limit, pc, Mine(s.log, t));
    assert s' == LockSet(s, t, pc.rs[pc.i], pc.e);
    InstallStep(s, t, pc.rs[pc.i], pc.e);
    PrefixGrows(s', pc, !Contains(c, pc.rs[pc.i].key) && |c| < MAX_ENTRIES);
  }

  /** What a locked Set of an acceptable record does to the table, and where its thread goes. */
  lemma InstallStep<V>(s: System<V>, t: Tid, r: Record<V>, e: Addr)
    requires Inv(s) && Inv(LockSet(s, t, r, e)) && Acceptable(Some(r))
    ensures var s', c := LockSet(s, t, r, e), Contents(s.pool, s.list);
            var (c', status) := SetResult(c, Some(r), true);
            && Contents(s'.pool, s'.list) == c'
            && At(s', t) == AfterSet(At(s, t), !Contains(c, r.key) && |c| < MAX_ENTRIES, status)
  {
    var s' := LockSet(s, t, r, e);
    assert s'.log[..|s'.log| - 1] == s.log;
  }

  lemma StepKeepsSync<V>(s: System<V>, t: Tid, a: Action<V>)
    requires Inv(s) && SyncOk(s) && Happens(true, s, t, a) && Inv(Exec(s, t, a))
    ensures SyncOk(Exec(s, t, a))
  {
    var s' := Exec(s, t, a);
    OnlyOwnPc(s, t, a);
    forall u | u in s'.pcs && Syncing(s'.pcs[u]) ensures Alone(s', u) && OnPrefix(s', s'.pcs[u]) {
      if u != t { SyncBesideStep(s, t, a, u); }
      else if a.Call? { OwnCallStep(s, t, a.call); }
      else { OwnStep(s, t, a); }
    }
  }

  lemma SyncBesideStep<V>(s: System<V>, t: Tid, a: Action<V>, u: Tid)
    requires Inv(s) && SyncOk(s) && Happens(true, s, t, a) && Inv(Exec(s, t, a))
    requires u != t && u in s.pcs && Syncing(s.pcs[u]) && Exec(s, t, a).pcs == s.pcs[t := At(Exec(s, t, a), t)]
    ensures Exec(s, t, a).pool == s.pool && Exec(s, t, a).list == s.list
    ensures Alone(Exec(s, t, a), u) && OnPrefix(Exec(s, t, a), s.pcs[u])
  {
    assert Alone(s, u) && !Writing(At(s, t));
    ReaderStep(s, t, a);
  }

  lemma OwnCallStep<V>(s: System<V>, t: Tid, call: Request<V>)
    requires Inv(s) && Happens(true, s, t, Call(call)) && Inv(Exec(s, t, Call(call)))
    requires Syncing(At(Exec(s, t, Call(call)), t))
    ensures Alone(Exec(s, t, Call(call)), t) && OnPrefix(Exec(s, t, Call(call)), At(Exec(s, t, Call(call)), t))
  {
    var s' := Exec(s, t, Call(call));
    assert s'.pcs == s.pcs[t := StartPc(call, s.limit)];
  }

  lemma StaysSyncing<V>(s: System<V>, t: Tid, a: Action<V>)
    requires Enabled(s, t, a) && !a.Call? && Syncing(At(Exec(s, t, a), t))
    ensures Syncing(At(s, t))
    ensures At(Exec(s, t, a), t).rs == At(s, t).rs && Progress(At(s, t)) <= Progress(At(Exec(s, t, a), t))
    ensures 0 <= Progress(At(Exec(s, t, a), t))
  {
    if a.Lock? {
      InReach(s, t);
      LockStaysSyncing(s, t);
    }
  }

  lemma LockStaysSyncing<V>(s: System<V>, t: Tid)
    requires Walkable(s.pool, s.list) && Ready(s, t, Lock) && Syncing(At(LockStep(s, t), t))
    ensures Syncing(At(s, t)) && At(LockStep(s, t), t).rs == At(s, t).rs
    ensures Progress(At(s, t)) <= Progress(At(LockStep(s, t), t)) && 0 <= Progress(At(LockStep(s, t), t))
  {
  }

  lemma OwnStep<V>(s: System<V>, t: Tid, a: Action<V>)
    requires Inv(s) && SyncOk(s) && Enabled(s, t, a) && Inv(Exec(s, t, a)) && !a.Call?
    requires Syncing(At(Exec(s, t, a), t)) && Exec(s, t, a).pcs == s.pcs[t := At(Exec(s, t, a), t)]
    ensures Alone(Exec(s, t, a), t) && OnPrefix(Exec(s, t, a), At(Exec(s, t, a), t))
  {
    StaysSyncing(s, t, a);
    assert Alone(s, t);
    if a.Lock? && At(s, t).SyncHolding? { OwnInstallStep(s, t); } else { OwnQuietStep(s, t, a); }
  }

  // ----- exclusive schedules -----

  /** The state after the first m steps of an exclusive schedule. */
  ghost function State<V>(limit: nat, steps: seq<(Tid, Action<V>)>, m: nat): System<V>
    requires m <= |steps|
  {
    RunAll(true, Initial(limit), steps[..m])
  }

  lemma StateStep<V>(limit: nat, steps: seq<(Tid, Action<V>)>, m: nat)
    requires m < |steps|
    ensures var s, (t, a) := State(limit, steps, m), steps[m];
            State(limit, steps, m + 1) == if Happens(true, s, t, a) then Exec(s, t, a) else s
  {
    assert steps[..m + 1][..m] == steps[..m];
  }

  lemma {:induction false} Reachable<V>(limit: nat, steps: seq<(Tid, Action<V>)>, m: nat)
    requires limit <= MAX_ENTRIES && m <= |steps|
    ensures Inv(State(limit, steps, m)) && SyncOk(State(limit, steps, m))
  {
    InitialInv<V>(limit);
    EveryInterleaving(true, Initial(limit), steps[..m]);
    if 0 < m {
      Reachable(limit, steps, m - 1);
      StateStep(limit, steps, m - 1);
      var s := State(limit, steps, m - 1);
      var (t, a) := steps[m - 1];
      if Happens(true, s, t, a) { StepKeepsSync(s, t, a); }
    }
  }

  /** In exclusive schedules every re-initialisation finds the list as the drain left it: empty. */
  lemma FindsEmpty<V>(limit: nat, steps: seq<(Tid, Action<V>)>)
    requires limit <= MAX_ENTRIES
    ensures ReinitializedEmpty(true, Initial(limit), steps)
  {
    forall m | 0 <= m < |steps| && steps[m].1.Reinitialize?
      && Happens(true, State(limit, steps, m), steps[m].0, steps[m].1)
      ensures State(limit, steps, m).list == []
    {
      Reachable(limit, steps, m);
      var s, t := State(limit, steps, m), steps[m].0;
      assert OnPrefix(s, s.pcs[t]) && Contents(s.pool, s.list) == Fold(s.pcs[t].rs[..0]);
    }
  }

  /** In every exclusive schedule live entries number the linked plus the privately held ones. */
  lemma PoolConserved<V>(limit: nat, steps: seq<(Tid, Action<V>)>)
    requires limit <= MAX_ENTRIES
    ensures var s := RunAll(true, Initial<V>(limit), steps); |s.pool| == |s.list| + |Holders(s)|
  {
    FindsEmpty(limit, steps);
    ConservedExactly(true, limit, steps);
  }

  // ----- lookups beside a Sync -----

  /** Thread t is in one Sync of rs from the moment m to the moment n. */
  ghost predicate SyncingFrom<V>(limit: nat, steps: seq<(Tid, Action<V>)>, t: Tid, rs: seq<Record<V>>, m: nat, n: nat) {
    && m <= n <= |steps| && At(State(limit, steps, m), t) == SyncCalled(rs)
    && forall k :: m <= k <= n ==> Syncing(At(State(limit, steps, k), t))
  }

  /** The lookup of thread u that takes the lock at step m, and what it finds. */
  ghost predicate Finds<V>(limit: nat, steps: seq<(Tid, Action<V>)>, m: nat, u: Tid, seen: seq<Record<V>>) {
    m < |steps| && At(State(limit, steps, m), u).LookupCalled? && At(State(limit, steps, m + 1), u) == Looked(seen)
  }

  ghost function Table<V>(s: System<V>): seq<Record<V>>
    requires Walkable(s.pool, s.list)
  {
    Contents(s.pool, s.list)
  }

  /** The table before the drain, and afterwards the fold of the first `progress` payload records. */
  ghost function SyncStage<V>(before: seq<Record<V>>, rs: seq<Record<V>>, progress: int): seq<Record<V>>
    requires progress <= |rs|
  {
    if progress < 0 then before else Fold(rs[..progress])
  }

  /** A step while the Sync of t is under way neither changes its payload nor turns it back. */
  lemma SyncStep<V>(s: System<V>, t: Tid, u: Tid, a: Action<V>)
    requires Inv(s) && SyncOk(s) && Happens(true, s, u, a) && Inv(Exec(s, u, a))
    requires Syncing(At(s, t)) && Syncing(At(Exec(s, u, a), t))
    ensures var s' := Exec(s, u, a);
            && At(s', t).rs == At(s, t).rs && Progress(At(s, t)) <= Progress(At(s', t))
            && (Progress(At(s', t)) < 0 ==> s'.pool == s.pool && s'.list == s.list)
  {
    OnlyOwnPc(s, u, a);
    if u == t { StaysSyncing(s, t, a); } else { SyncBesideStep(s, u, a, t); }
  }

  /** The table is at its stage of the Sync. */
  ghost predicate AtStage<V>(b: System<V>, s: System<V>, t: Tid, rs: seq<Record<V>>) {
    && Walkable(b.pool, b.list) && Walkable(s.pool, s.list) && Syncing(At(s, t)) && At(s, t).rs == rs
    && Progress(At(s, t)) <= |rs| && Table(s) == SyncStage(Table(b), rs, Progress(At(s, t)))
  }

  lemma StageStep<V>(b: System<V>, s: System<V>, t: Tid, rs: seq<Record<V>>, u: Tid, a: Action<V>)
    requires Inv(s) && SyncOk(s) && Happens(true, s, u, a) && Inv(Exec(s, u, a)) && SyncOk(Exec(s, u, a))
    requires AtStage(b, s, t, rs) && Syncing(At(Exec(s, u, a), t))
    ensures AtStage(b, Exec(s, u, a), t, rs) && Progress(At(s, t)) <= Progress(At(Exec(s, u, a), t))
  {
    SyncStep(s, t, u, a);
    assert OnPrefix(Exec(s, u, a), At(Exec(s, u, a), t));
  }

  lemma StageNext<V>(limit: nat, steps: seq<(Tid, Action<V>)>, t: Tid, rs: seq<Record<V>>, b: System<V>, n: nat)
    requires limit <= MAX_ENTRIES && n < |steps|
    requires AtStage(b, State(limit, steps, n), t, rs) && Syncing(At(State(limit, steps, n + 1), t))
    ensures AtStage(b, State(limit, steps, n + 1), t, rs)
    ensures Progress(At(State(limit, steps, n), t)) <= Progress(At(State(limit, steps, n + 1), t))
  {
    var s := State(limit, steps, n);
    var (u, a) := steps[n];
    Reachable(limit, steps, n);
    Reachable(limit, steps, n + 1);
    StateStep(limit, steps, n);
    if Happens(true, s, u, a) { StageStep(b, s, t, rs, u, a); }
  }

  lemma {:induction false} SyncAdvances<V>(limit: nat, steps: seq<(Tid, Action<V>)>, t: Tid, rs: seq<Record<V>>,
                                           m: nat, k: nat, n: nat)
    requires limit <= MAX_ENTRIES && SyncingFrom(limit, steps, t, rs, m, n) && m <= k <= n
    ensures AtStage(State(limit, steps, m), State(limit, steps, n), t, rs)
    ensures Progress(At(State(limit, steps, k), t)) <= Progress(At(State(limit, steps, n), t))
    decreases n
  {
    if m == n {
      Reachable(limit, steps, n);
    } else {
      SyncAdvances(limit, steps, t, rs, m, if k < n then k else n - 1, n - 1);
      StageNext(limit, steps, t, rs, State(limit, steps, m), n - 1);
    }
  }

  /** A lookup finds the table of the moment at which it takes the lock. */
  lemma FindsTable<V>(limit: nat, steps: seq<(Tid, Action<V>)>, m: nat, u: Tid, seen: seq<Record<V>>)
    requires limit <= MAX_ENTRIES && Finds(limit, steps, m, u, seen)
    ensures Walkable(State(limit, steps, m).pool, State(limit, steps, m).list) && seen == Table(State(limit, steps, m))
  {
    Reachable(limit, steps, m);
    StateStep(limit, steps, m);
    var s := State(limit, steps, m);
    var (t, a) := steps[m];
    if t != u { OnlyOwnPc(s, t, a); }
  }

  /**
   Every lookup taken while a Sync runs finds the table the Sync found, or the fold of the payload
   records set so far; and later lookups find the same prefix or a longer one.
   */
  lemma SyncView<V>(limit: nat, steps: seq<(Tid, Action<V>)>, t: Tid, rs: seq<Record<V>>, m: nat, n: nat,
                    k: nat, u: Tid, seen: seq<Record<V>>, l: nat, v: Tid, seen': seq<Record<V>>)
    requires limit <= MAX_ENTRIES && SyncingFrom(limit, steps, t, rs, m, n) && m <= k <= l <= n
    requires Finds(limit, steps, k, u, seen) && Finds(limit, steps, l, v, seen')
    ensures var b := State(limit, steps, m);
            var i, j := Progress(At(State(limit, steps, k), t)), Progress(At(State(limit, steps, l), t));
            && i <= j <= |rs| && Walkable(b.pool, b.list)
            && seen == SyncStage(Table(b), rs, i) && seen' == SyncStage(Table(b), rs, j)
  {
    SyncAdvances(limit, steps, t, rs, m, k, l);
    SyncAdvances(limit, steps, t, rs, m, k, k);
    FindsTable(limit, steps, k, u, seen);
    FindsTable(limit, steps, l, v, seen');
  }

  /**
   Two lookups taken during a Sync, the first after the drain. The match of the first stays the
   match of every prefix from there on exactly when all payload records still to come are harmless
   to it; then the second lookup finds it too, and so does the finished table. Payloads without
   repeated AppIds are of this kind.
   */
  lemma MatchOnceSeen(limit: nat, steps: seq<(Tid, Action<P.PolicyBody>)>, t: Tid, ps: seq<P.Policy>, m: nat, n: nat,
                      k: nat, u: Tid, seen: seq<P.Policy>, l: nat, v: Tid, seen': seq<P.Policy>, c: P.Connection)
    requires limit <= MAX_ENTRIES && SyncingFrom(limit, steps, t, ps, m, n) && m <= k <= l <= n
    requires Finds(limit, steps, k, u, seen) && Finds(limit, steps, l, v, seen')
    requires 0 <= Progress(At(State(limit, steps, k), t)) && P.FirstMatch(seen, c).Some?
    ensures var i, j := Progress(At(State(limit, steps, k), t)), Progress(At(State(limit, steps, l), t));
            && i <= j <= |ps|
            && ((forall q :: i <= q < |ps| ==> P.Harmless(seen, ps[q], c)) <==>
                (forall q :: i <= q <= |ps| ==> P.FirstMatch(Fold(ps[..q]), c) == P.FirstMatch(seen, c)))
            && ((forall q :: i <= q < j ==> P.Harmless(seen, ps[q], c)) ==>
                P.FirstMatch(seen', c) == P.FirstMatch(seen, c))
            && (Distinct(ps) ==> P.FirstMatch(seen', c) == P.FirstMatch(seen, c) == P.FirstMatch(Fold(ps), c))
  {
    SyncView(limit, steps, t, ps, m, n, k, u, seen, l, v, seen');
    var i, j := Progress(At(State(limit, steps, k), t)), Progress(At(State(limit, steps, l), t));
    P.MatchFinalExactly(ps, i, |ps|, c);
    P.MatchFinalExactly(ps, i, j, c);
    if Distinct(ps) {
      P.PrefixMatchIsFinal(ps, i, j, c);
      P.PrefixMatchIsFinal(ps, i, |ps|, c);
      assert ps[..|ps|] == ps;
    }
  }

  // ----- other schedules -----

  lemma RunAppend<V>(exclusive: bool, s: System<V>, p: seq<(Tid, Action<V>)>, t: Tid, a: Action<V>)
    requires Happens(exclusive, RunAll(exclusive, s, p), t, a)
    ensures RunAll(exclusive, s, p + [(t, a)]) == Exec(RunAll(exclusive, s, p), t, a)
  {
    assert (p + [(t, a)])[..|p|] == p;
  }

  /** The entries, the list with its counter, and the threads of a state. */
  ghost predicate Shape<V>(s: System<V>, pool: map<Addr, Record<V>>, list: seq<Addr>, pcs: map<Tid, Pc<V>>) {
    s.pool == pool && s.list == list && s.count == |list| && s.pcs == pcs
  }

  type PolicySchedule = seq<(Tid, Action<P.PolicyBody>)>

  lemma CallBoth(s: System<P.PolicyBody>, r: P.Policy)
    requires Shape(s, map[], [], map[0 := SyncCalled([])])
    ensures Happens(false, s, 1, Call(CallSet(Some(r))))
    ensures Shape(Exec(s, 1, Call(CallSet(Some(r)))), map[], [], map[0 := SyncCalled([]), 1 := SetCalled(Some(r))])
  {
  }

  lemma AllocateBesideSync(s: System<P.PolicyBody>, r: P.Policy)
    requires r.version == RECORD_VERSION
    requires Shape(s, map[], [], map[0 := SyncCalled([]), 1 := SetCalled(Some(r))])
    ensures Happens(false, s, 1, Allocate(5))
    ensures Shape(Exec(s, 1, Allocate(5)), map[5 := r], [], map[0 := SyncCalled([]), 1 := SetHolding(r, 5)])
  {
  }

  /** A Sync was called, and a Set beside it holds a new entry. */
  lemma SetHoldsBesideSync(r: P.Policy) returns (steps: PolicySchedule)
    requires r.version == RECORD_VERSION
    ensures var s := RunAll(false, Initial(P.MAX_SYNC_POLICIES), steps);
            Shape(s, map[5 := r], [], map[0 := SyncCalled([]), 1 := SetHolding(r, 5)])
  {
    var z := Initial<P.PolicyBody>(P.MAX_SYNC_POLICIES);
    RunAppend(false, z, [], 0, Call(CallSync([])));
    var a: PolicySchedule := [] + [(0, Call(CallSync([])))];
    CallBoth(RunAll(false, z, a), r);
    RunAppend(false, z, a, 1, Call(CallSet(Some(r))));
    var b := a + [(1, Call(CallSet(Some(r))))];
    AllocateBesideSync(RunAll(false, z, b), r);
    RunAppend(false, z, b, 1, Allocate(5));
    steps := b + [(1, Allocate(5))];
  }

  lemma DrainBesideSet(s: System<P.PolicyBody>, r: P.Policy)
    requires Shape(s, map[5 := r], [], map[0 := SyncCalled([]), 1 := SetHolding(r, 5)])
    ensures Happens(false, s, 0, Lock)
    ensures Shape(Exec(s, 0, Lock), map[5 := r], [], map[0 := SyncCleared([]), 1 := SetHolding(r, 5)])
  {
  }

  lemma LinkAfterDrain(s: System<P.PolicyBody>, r: P.Policy)
    requires Shape(s, map[5 := r], [], map[0 := SyncCleared([]), 1 := SetHolding(r, 5)])
    ensures Happens(false, s, 1, Lock)
    ensures Shape(Exec(s, 1, Lock), map[5 := r], [5], map[0 := SyncCleared([]), 1 := Done(Success)])
  {
    assert Contents(s.pool, s.list) == [];
  }

  lemma ResetAfterLink(s: System<P.PolicyBody>, r: P.Policy)
    requires Shape(s, map[5 := r], [5], map[0 := SyncCleared([]), 1 := Done(Success)])
    ensures Happens(false, s, 0, Reinitialize)
    ensures Shape(Exec(s, 0, Reinitialize), map[5 := r], [], map[0 := SyncAt([], 0), 1 := Done(Success)])
  {
  }

  lemma LeakedAfterReset(s: System<P.PolicyBody>, r: P.Policy)
    requires Shape(s, map[5 := r], [], map[0 := SyncAt([], 0), 1 := Done(Success)])
    ensures |s.pool| == 1 && s.list == [] && Holders(s) == {} && Lost(s) == {5}
  {
  }

  /**
   The exclusion of other writers is needed. In this schedule from the empty table a Set links its
   entry between the drain and the unlocked re-initialisation of a Sync, and the entry is left
   live although no list and no thread reaches it.
   */
  lemma OverlappingWriterLeaks(r: P.Policy) returns (steps: PolicySchedule)
    requires r.version == RECORD_VERSION
    ensures var s := RunAll(false, Initial(P.MAX_SYNC_POLICIES), steps);
            |s.pool| == 1 && s.list == [] && Holders(s) == {} && Lost(s) == {5}
  {
    var z := Initial<P.PolicyBody>(P.MAX_SYNC_POLICIES);
    var p := SetHoldsBesideSync(r);
    DrainBesideSet(RunAll(false, z, p), r);
    RunAppend(false, z, p, 0, Lock);
    var q := p + [(0, Lock)];
    LinkAfterDrain(RunAll(false, z, q), r);
    RunAppend(false, z, q, 1, Lock);
    ResetAfterLink(RunAll(false, z, q + [(1, Lock)]), r);
    RunAppend(false, z, q + [(1, Lock)], 0, Reinitialize);
    steps := q + [(1, Lock)] + [(0, Reinitialize)];
    LeakedAfterReset(RunAll(false, z, steps), r);
  }
}

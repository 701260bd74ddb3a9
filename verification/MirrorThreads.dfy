/**
 The reported state beside overlapping requests. The request queue dispatches in parallel, and a
 request that puts a value into force stores it into the reported state in a later step, so two
 requests can store in the other order. One variable and its mirror at a time, any number of threads.
 */
module MirrorThreads {
  import opened Base
  import D = Decisions
  import M = DriverModel

  type Tid = nat

  /** A variable of the driver with a mirror in the reported state. */
  datatype Mirrored = SwitchMode | GuardianMode | Generation

  /** The value an admitted request puts into force, unless it is refused. */
  function Enforced(k: Mirrored, v: U32): Option<U32> {
    match k
    case SwitchMode => if D.KS_RESTORE < v then None else Some(if v == D.KS_RESTORE then D.KS_OFF else v)
    case GuardianMode => if M.MODE_HYBRID < v then None else Some(v)
    case Generation => Some(v)
  }

  /** The value to be stored is read back from the variable; a mode request stores its own argument. */
  predicate Rereads(k: Mirrored) {
    k != GuardianMode
  }

  /** Where a request stands: its value is in force, or it holds what it will store, from step `at`. */
  datatype Pc = Idle | InForce(v: U32, at: nat) | Holding(v: U32, at: nat)

  datatype System = System(kind: Mirrored, variable: U32, mirror: U32, pcs: map<Tid, Pc>)

  /** Import stores a kill-switch mode into the reported state and puts none into force. */
  datatype Move = Enforce(v: U32) | Take | Store | Import(v: U32)

  type Schedule = seq<(Tid, Move)>

  function At(s: System, t: Tid): Pc {
    if t in s.pcs then s.pcs[t] else Idle
  }

  predicate Enforces(s: System, t: Tid, m: Move) {
    m.Enforce? && At(s, t).Idle? && Enforced(s.kind, m.v).Some?
  }

  predicate Stores(s: System, t: Tid, m: Move) {
    m.Store? && At(s, t).Holding?
  }

  predicate Imports(s: System, t: Tid, m: Move) {
    m.Import? && At(s, t).Idle? && s.kind.SwitchMode?
  }

  /** Step n; a thread that is not ready for it does nothing. */
  function Next(s: System, n: nat, t: Tid, m: Move): System {
    var pc := At(s, t);
    if Enforces(s, t, m) then
      var v := Enforced(s.kind, m.v).value;
      s.(variable := v, pcs := s.pcs[t := InForce(v, n)])
    else if m.Take? && pc.InForce? then
      s.(pcs := s.pcs[t := if Rereads(s.kind) then Holding(s.variable, n) else Holding(pc.v, pc.at)])
    else if Stores(s, t, m) then s.(mirror := pc.v, pcs := s.pcs[t := Idle])
    else if Imports(s, t, m) then s.(mirror := m.v)
    else s
  }

  function After(s: System, steps: Schedule): System {
    if steps == [] then s
    else
      var p, x := steps[..|steps| - 1], steps[|steps| - 1];
      Next(After(s, p), |p|, x.0, x.1)
  }

  // ----- where the mirror and the variable come from -----

  /** Of the last change of the mirror: none, the step that obtained the value stored, or an import. */
  datatype Source = Initially | Taken(at: nat) | Imported(at: nat)

  function SourceOf(s: System, steps: Schedule): Source {
    if steps == [] then Initially
    else
      var p, x := steps[..|steps| - 1], steps[|steps| - 1];
      if Stores(After(s, p), x.0, x.1) then Taken(At(After(s, p), x.0).at)
      else if Imports(After(s, p), x.0, x.1) then Imported(|p|)
      else SourceOf(s, p)
  }

  /** The last step that put a value into force, or -1. */
  function LastEnforced(s: System, steps: Schedule): (n: int)
    ensures -1 <= n < |steps|
  {
    if steps == [] then -1
    else
      var p, x := steps[..|steps| - 1], steps[|steps| - 1];
      if Enforces(After(s, p), x.0, x.1) then |p| else LastEnforced(s, p)
  }

  /** The value last stored was obtained no earlier than the last one was put into force. */
  predicate Current(s: System, steps: Schedule) {
    match SourceOf(s, steps)
    case Initially => LastEnforced(s, steps) < 0
    case Taken(at) => LastEnforced(s, steps) <= at
    case Imported(_) => false
  }

  /** The variable as it was right after step n, or at the start. */
  function VariableAfter(s: System, steps: Schedule, n: int): U32
    requires -1 <= n < |steps|
  {
    After(s, steps[..n + 1]).variable
  }

  lemma {:induction false} KindKept(s: System, steps: Schedule)
    ensures After(s, steps).kind == s.kind
  {
    if steps != [] { KindKept(s, steps[..|steps| - 1]); }
  }

  /** The variable holds what the last enforcing step put there. */
  lemma {:induction false} VariableIs(s: System, steps: Schedule)
    ensures var n := LastEnforced(s, steps);
            if n < 0 then After(s, steps).variable == s.variable
            else steps[n].1.Enforce? && Enforced(s.kind, steps[n].1.v) == Some(After(s, steps).variable)
  {
    if steps != [] {
      var p := steps[..|steps| - 1];
      VariableIs(s, p);
      KindKept(s, p);
      assert forall n :: 0 <= n < |p| ==> steps[n] == p[n];
    }
  }

  /** From its last change on the variable stays. */
  lemma {:induction false} VariableStays(s: System, steps: Schedule, n: int)
    requires LastEnforced(s, steps) <= n < |steps| && -1 <= n
    ensures VariableAfter(s, steps, n) == After(s, steps).variable
  {
    if n == |steps| - 1 {
      assert steps[..n + 1] == steps;
    } else {
      var p := steps[..|steps| - 1];
      VariableStays(s, p, n);
      assert p[..n + 1] == steps[..n + 1];
    }
  }

  /** What a request holds is the variable as it was right after the step it was obtained at. */
  ghost predicate HeldOk(s: System, steps: Schedule, pc: Pc) {
    !pc.Idle? ==> pc.at < |steps| && pc.v == VariableAfter(s, steps, pc.at)
  }

  lemma HeldStays(s: System, p: Schedule, x: (Tid, Move), pc: Pc)
    requires HeldOk(s, p, pc)
    ensures HeldOk(s, p + [x], pc)
  {
    if !pc.Idle? { assert (p + [x])[..pc.at + 1] == p[..pc.at + 1]; }
  }

  lemma HeldAfterOwnStep(s: System, p: Schedule, x: (Tid, Move))
    requires HeldOk(s, p, At(After(s, p), x.0))
    ensures HeldOk(s, p + [x], At(After(s, p + [x]), x.0))
  {
    var steps, pc := p + [x], At(After(s, p), x.0);
    HeldStays(s, p, x, pc);
    assert steps[..|p|] == p && steps[..|p| + 1] == steps;
    assert After(s, steps) == Next(After(s, p), |p|, x.0, x.1);
  }

  lemma {:induction false} AllHeld(s: System, steps: Schedule, t: Tid)
    requires s.pcs == map[]
    ensures HeldOk(s, steps, At(After(s, steps), t))
  {
    if steps != [] {
      var p, x := steps[..|steps| - 1], steps[|steps| - 1];
      assert steps == p + [x];
      AllHeld(s, p, t);
      if t == x.0 { HeldAfterOwnStep(s, p, x); } else { HeldStays(s, p, x, At(After(s, p), t)); }
    }
  }

  /** A mirror value is what its source says. */
  ghost predicate ComesFrom(s: System, steps: Schedule, source: Source, v: U32) {
    match source
    case Initially => v == s.mirror
    case Taken(at) => at < |steps| && v == VariableAfter(s, steps, at)
    case Imported(at) => at < |steps| && steps[at].1 == Import(v)
  }

  lemma SourceStays(s: System, p: Schedule, x: (Tid, Move), source: Source, v: U32)
    requires ComesFrom(s, p, source, v)
    ensures ComesFrom(s, p + [x], source, v)
  {
    if source.Taken? { assert (p + [x])[..source.at + 1] == p[..source.at + 1]; }
  }

  lemma {:induction false} MirrorIs(s: System, steps: Schedule)
    requires s.pcs == map[]
    ensures ComesFrom(s, steps, SourceOf(s, steps), After(s, steps).mirror)
  {
    if steps != [] {
      var p, x := steps[..|steps| - 1], steps[|steps| - 1];
      assert steps == p + [x];
      var z := After(s, p);
      MirrorIs(s, p);
      SourceStays(s, p, x, SourceOf(s, p), z.mirror);
      AllHeld(s, p, x.0);
      if Stores(z, x.0, x.1) {
        SourceStays(s, p, x, Taken(At(z, x.0).at), At(z, x.0).v);
      }
    }
  }

  lemma CurrentAgrees(s: System, steps: Schedule)
    requires s.pcs == map[] && s.mirror == s.variable && Current(s, steps)
    ensures After(s, steps).mirror == After(s, steps).variable
  {
    MirrorIs(s, steps);
    VariableIs(s, steps);
    if SourceOf(s, steps).Taken? { VariableStays(s, steps, SourceOf(s, steps).at); }
  }

  // ----- other contents -----

  /** Equal but for the values requested, and as well admitted. */
  predicate SameKind(k: Mirrored, m: Move, m': Move) {
    || m == m' || (m.Import? && m'.Import?)
    || (m.Enforce? && m'.Enforce? && (Enforced(k, m.v).Some? <==> Enforced(k, m'.v).Some?))
  }

  predicate SameShape(k: Mirrored, steps: Schedule, steps': Schedule) {
    |steps| == |steps'|
    && forall n :: 0 <= n < |steps| ==> steps'[n].0 == steps[n].0 && SameKind(k, steps[n].1, steps'[n].1)
  }

  predicate SameStand(pc: Pc, pc': Pc) {
    || (pc.Idle? && pc'.Idle?)
    || (pc.InForce? && pc'.InForce? && pc.at == pc'.at) || (pc.Holding? && pc'.Holding? && pc.at == pc'.at)
  }

  ghost predicate SameStands(a: System, b: System) {
    a.kind == b.kind && forall t :: SameStand(At(a, t), At(b, t))
  }

  lemma SameFlow(a: System, b: System, n: nat, t: Tid, m: Move, m': Move)
    requires SameStands(a, b) && SameKind(a.kind, m, m')
    ensures SameStands(Next(a, n, t, m), Next(b, n, t, m'))
    ensures Enforces(a, t, m) <==> Enforces(b, t, m')
    ensures Stores(a, t, m) <==> Stores(b, t, m')
    ensures Imports(a, t, m) <==> Imports(b, t, m')
  {
    var a', b' := Next(a, n, t, m), Next(b, n, t, m');
    assert SameStand(At(a, t), At(b, t));
    forall u ensures SameStand(At(a', u), At(b', u)) {
      assert SameStand(At(a, u), At(b, u));
    }
  }

  /** Contents change neither where the mirror comes from nor which step enforced last. */
  lemma {:induction false} ShapeDecides(s: System, steps: Schedule, steps': Schedule)
    requires SameShape(s.kind, steps, steps')
    ensures SameStands(After(s, steps), After(s, steps'))
    ensures SourceOf(s, steps) == SourceOf(s, steps') && LastEnforced(s, steps) == LastEnforced(s, steps')
  {
    if steps != [] {
      var n := |steps| - 1;
      var p, p' := steps[..n], steps'[..n];
      ShapeDecides(s, p, p');
      KindKept(s, p);
      assert SameStand(At(After(s, p), steps[n].0), At(After(s, p'), steps[n].0));
      SameFlow(After(s, p), After(s, p'), n, steps[n].0, steps[n].1, steps'[n].1);
    }
  }

  /** A value other than v that every variable takes as it is. */
  function Other(v: U32): (r: U32)
    ensures r != v
    ensures forall k :: Enforced(k, r) == Some(r)
  {
    if v == 0 then 1 else 0
  }

  /** If something was put into force after the stored value was obtained, another value there shows it. */
  lemma StaleDisagrees(s: System, steps: Schedule)
    requires s.pcs == map[] && !SourceOf(s, steps).Imported? && !Current(s, steps)
    ensures var n := LastEnforced(s, steps);
            var steps' := steps[n := (steps[n].0, Enforce(Other(After(s, steps).mirror)))];
            SameShape(s.kind, steps, steps') && After(s, steps').mirror != After(s, steps').variable
  {
    var n := LastEnforced(s, steps);
    var steps' := steps[n := (steps[n].0, Enforce(Other(After(s, steps).mirror)))];
    VariableIs(s, steps);
    ShapeDecides(s, steps, steps');
    VariableIs(s, steps');
    MirrorIs(s, steps);
    MirrorIs(s, steps');
    if SourceOf(s, steps).Taken? {
      assert steps'[..SourceOf(s, steps).at + 1] == steps[..SourceOf(s, steps).at + 1];
    }
  }

  lemma ImportDisagrees(s: System, steps: Schedule)
    requires s.pcs == map[] && SourceOf(s, steps).Imported?
    ensures var n := SourceOf(s, steps).at;
            n < |steps| &&
            var steps' := steps[n := (steps[n].0, Import(Other(After(s, steps).variable)))];
            SameShape(s.kind, steps, steps') && After(s, steps').mirror != After(s, steps').variable
  {
    MirrorIs(s, steps);
    var n := SourceOf(s, steps).at;
    var steps' := steps[n := (steps[n].0, Import(Other(After(s, steps).variable)))];
    ShapeDecides(s, steps, steps');
    VariableIs(s, steps);
    VariableIs(s, steps');
    MirrorIs(s, steps');
  }

  /**
   The mirror agrees with its variable at the end of a schedule, whatever values were requested,
   exactly when its last value was not imported and was obtained no earlier than the last value
   was put into force.
   */
  lemma MirrorExactly(s: System, steps: Schedule)
    requires s.pcs == map[] && s.mirror == s.variable
    ensures (forall steps' :: SameShape(s.kind, steps, steps') ==>
               After(s, steps').mirror == After(s, steps').variable)
            <==> Current(s, steps)
  {
    if Current(s, steps) {
      forall steps' | SameShape(s.kind, steps, steps') ensures After(s, steps').mirror == After(s, steps').variable {
        ShapeDecides(s, steps, steps');
        CurrentAgrees(s, steps');
      }
    } else if SourceOf(s, steps).Imported? {
      ImportDisagrees(s, steps);
    } else {
      StaleDisagrees(s, steps);
    }
  }

  // ----- one request at a time -----

  ghost predicate Quiet(s: System) {
    forall t :: At(s, t).Idle?
  }

  /** Every request that enforces a value starts when no other is under way, and nothing is imported. */
  ghost predicate Serial(s: System, steps: Schedule) {
    forall n :: 0 <= n < |steps| ==>
      var z := After(s, steps[..n]);
      && (Enforces(z, steps[n].0, steps[n].1) ==> Quiet(z))
      && !Imports(z, steps[n].0, steps[n].1)
  }

  /** The one request under way is the last to have enforced; without one the mirror is current. */
  ghost predicate SerialOk(s: System, steps: Schedule) {
    var z := After(s, steps);
    && (forall t, u :: !At(z, t).Idle? && !At(z, u).Idle? ==> t == u)
    && (forall t :: !At(z, t).Idle? ==> LastEnforced(s, steps) <= At(z, t).at)
    && (Quiet(z) ==> Current(s, steps))
  }

  lemma {:induction false} SerialKeeps(s: System, steps: Schedule)
    requires s.pcs == map[] && Serial(s, steps)
    ensures SerialOk(s, steps)
  {
    if steps != [] {
      var p := steps[..|steps| - 1];
      assert forall n :: 0 <= n < |p| ==> p[..n] == steps[..n] && p[n] == steps[n];
      SerialKeeps(s, p);
      SerialStep(s, steps);
    }
  }

  lemma SerialStep(s: System, steps: Schedule)
    requires steps != [] && SerialOk(s, steps[..|steps| - 1])
    requires var z, x := After(s, steps[..|steps| - 1]), steps[|steps| - 1];
             (Enforces(z, x.0, x.1) ==> Quiet(z)) && !Imports(z, x.0, x.1)
    ensures SerialOk(s, steps)
  {
    var p, x := steps[..|steps| - 1], steps[|steps| - 1];
    var z, z' := After(s, p), After(s, steps);
    assert forall t :: t != x.0 ==> At(z', t) == At(z, t);
    if Quiet(z') {
      assert At(z', x.0).Idle?;
      if Quiet(z) {
        assert At(z, x.0).Idle?;
      } else {
        var t :| !At(z, t).Idle?;
        assert t == x.0;
      }
    }
  }

  /** Requests handled one at a time leave the mirror in agreement. */
  lemma SerialAgrees(s: System, steps: Schedule)
    requires s.pcs == map[] && s.mirror == s.variable && Serial(s, steps) && Quiet(After(s, steps))
    ensures After(s, steps).mirror == After(s, steps).variable
  {
    SerialKeeps(s, steps);
    CurrentAgrees(s, steps);
  }

  // ----- the race -----

  function Fresh(k: Mirrored): System {
    System(k, 0, 0, map[])
  }

  /** Two requests: the first obtains its value before the second enforces its own, and stores last. */
  function Race(): Schedule {
    [(1, Enforce(1)), (1, Take), (2, Enforce(0)), (2, Take), (2, Store), (1, Store)]
  }

  lemma AfterAppend(s: System, p: Schedule, x: (Tid, Move))
    ensures After(s, p + [x]) == Next(After(s, p), |p|, x.0, x.1)
  {
    assert (p + [x])[..|p|] == p;
  }

  /** No request is under way, nothing was imported, and the reported value is not the one in force. */
  lemma RaceDisagrees(k: Mirrored)
    ensures var s := After(Fresh(k), Race()); Quiet(s) && s.variable == 0 && s.mirror == 1
    ensures !Current(Fresh(k), Race())
  {
    var s := Fresh(k);
    var a: Schedule := [(1, Enforce(1))];
    var b := a + [(1, Take)];
    var c := b + [(2, Enforce(0))];
    var d := c + [(2, Take)];
    var e := d + [(2, Store)];
    assert a == [] + [(1, Enforce(1))];
    AfterAppend(s, [], (1, Enforce(1)));
    AfterAppend(s, a, (1, Take));
    AfterAppend(s, b, (2, Enforce(0)));
    AfterAppend(s, c, (2, Take));
    AfterAppend(s, d, (2, Store));
    AfterAppend(s, e, (1, Store));
    assert Race() == e + [(1, Store)];
    if Current(s, Race()) { CurrentAgrees(s, Race()); }
  }

  // ----- the requests this stands for -----

  /** The value a request enforces here is the one its operation puts into force. */
  lemma EnforcedIsSwitch(ks: D.KillSwitch, config: D.KillSwitchConfig)
    requires config.version == D.KS_VERSION
    ensures var (ks', status) := D.SetKillSwitch(ks, Some(config));
            match Enforced(SwitchMode, config.mode)
            case None => ks' == ks && status == InvalidParameter
            case Some(v) => ks'.mode == v && status == Success
  {
  }

  lemma EnforcedIsMode(s: M.State, mode: U32, poll: M.Poll)
    ensures var (s', status) := M.SetMode(s, mode, poll);
            match Enforced(GuardianMode, mode)
            case None => s' == s && status == InvalidParameter
            case Some(v) => s'.coord.mode == v && s'.reported.mode == v && status == Success
  {
  }

  lemma EnforcedIsGeneration(s: M.State, blob: M.StateBlob)
    requires blob.version == M.BLOB_VERSION
    ensures var s' := M.Import(s, Some(blob)).0;
            s'.mgr.generation == s'.reported.generation == Enforced(Generation, blob.generation).value
  {
  }
}

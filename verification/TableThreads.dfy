/**
 One table under any number of threads. A spin-lock region is one step; allocation, which comes
 before the lock, and the frees that follow it are steps of their own, and freed addresses may be
 handed out again. A history records every call, the moment each operation takes effect with what
 it computed there, and every answer. Schedules may be exclusive, where no other writer overlaps a
 running Sync, or not.
 */
module TableThreads {
  import opened Base
  import opened OrderedTable
  import L = LinkedTable

  type Addr = nat
  type Tid = nat

  datatype Request<V> =
    | CallSet(arg: Option<Record<V>>)
    | CallRemove(key: AppId)
    | CallLookup
    | CallSync(rs: seq<Record<V>>)

  datatype Answer<V> = Status(status: NtStatus) | Records(seen: seq<Record<V>>)

  /** One event of the history: a call, the effect of an operation with its outcome there, or an answer. */
  datatype Entry<V> =
    | Called(t: Tid, call: Request<V>)
    | SetDone(t: Tid, arg: Option<Record<V>>, alloc: bool, status: NtStatus)
    | RemoveDone(t: Tid, key: AppId, status: NtStatus)
    | LookupDone(t: Tid, seen: seq<Record<V>>)
    | ClearDone(t: Tid)
    | Reset(t: Tid)
    | Returned(t: Tid, answer: Answer<V>)

  /** Where a thread stands in the call it is making, and the pool entry it holds privately. */
  datatype Pc<V> =
    | Idle
    | SetCalled(arg: Option<Record<V>>)
    | SetHolding(r: Record<V>, e: Addr)
    | SetReturning(e: Addr, status: NtStatus)
    | RemoveCalled(key: AppId)
    | RemoveReturning(e: Addr)
    | LookupCalled
    | Looked(seen: seq<Record<V>>)
    | SyncCalled(rs: seq<Record<V>>)
    | SyncCleared(rs: seq<Record<V>>)
    | SyncAt(rs: seq<Record<V>>, i: nat)
    | SyncHolding(rs: seq<Record<V>>, i: nat, e: Addr)
    | SyncReturning(rs: seq<Record<V>>, i: nat, e: Addr, status: NtStatus)
    | Done(status: NtStatus)

  /** The pool, the list with its counter, the threads, the Sync limit of the table, and the history. */
  datatype System<V> = System(pool: map<Addr, Record<V>>, list: seq<Addr>, count: U32, pcs: map<Tid, Pc<V>>,
                              limit: nat, log: seq<Entry<V>>)

  datatype Action<V> =
    | Call(call: Request<V>)
    | Allocate(e: Addr)
    | AllocateFails
    | Lock
    | Reinitialize
    | FreeEntry
    | Return

  function At<V>(s: System<V>, t: Tid): Pc<V> {
    if t in s.pcs then s.pcs[t] else Idle
  }

  function Move<V>(s: System<V>, t: Tid, pc: Pc<V>): System<V> {
    s.(pcs := s.pcs[t := pc])
  }

  function Note<V>(s: System<V>, e: Entry<V>): System<V> {
    s.(log := s.log + [e])
  }

  /** The entry a thread holds that no other thread can reach. */
  function Private<V>(pc: Pc<V>): Option<Addr> {
    match pc
    case SetHolding(_, e) => Some(e)
    case SetReturning(e, _) => Some(e)
    case RemoveReturning(e) => Some(e)
    case SyncHolding(_, _, e) => Some(e)
    case SyncReturning(_, _, e, _) => Some(e)
    case _ => None
  }

  predicate Syncing<V>(pc: Pc<V>) {
    pc.SyncCalled? || pc.SyncCleared? || pc.SyncAt? || pc.SyncHolding? || pc.SyncReturning?
  }

  predicate Writing<V>(pc: Pc<V>) {
    Syncing(pc) || pc.SetCalled? || pc.SetHolding? || pc.SetReturning? || pc.RemoveCalled? || pc.RemoveReturning?
  }

  ghost predicate Walkable<V>(pool: map<Addr, Record<V>>, list: seq<Addr>) {
    forall i :: 0 <= i < |list| ==> list[i] in pool
  }

  /** The records a walk over the list meets. */
  ghost function Contents<V>(pool: map<Addr, Record<V>>, list: seq<Addr>): (t: seq<Record<V>>)
    requires Walkable(pool, list)
    ensures |t| == |list| && forall i :: 0 <= i < |t| ==> t[i] == pool[list[i]]
  {
    seq(|list|, i requires 0 <= i < |list| => pool[list[i]])
  }

  // ----- the steps -----

  function StartPc<V>(call: Request<V>, limit: nat): Pc<V> {
    match call
    case CallSet(arg) => SetCalled(arg)
    case CallRemove(key) => RemoveCalled(key)
    case CallLookup => LookupCalled
    case CallSync(rs) => if limit < |rs| then Done(InvalidParameter) else SyncCalled(rs)
  }

  /** The exclusion under which Sync is claimed to work: it runs without any other writer. */
  ghost predicate Exclusive<V>(s: System<V>, a: Action<V>) {
    a.Call? ==>
      && (Writing(StartPc(a.call, s.limit)) ==> forall u :: u in s.pcs ==> !Syncing(s.pcs[u]))
      && (Syncing(StartPc(a.call, s.limit)) ==> forall u :: u in s.pcs ==> !Writing(s.pcs[u]))
  }

  predicate Allocating<V>(pc: Pc<V>) {
    pc.SetCalled? || (pc.SyncAt? && pc.i < |pc.rs|)
  }

  /** The thread stands where it takes this step next. */
  predicate Ready<V>(s: System<V>, t: Tid, a: Action<V>) {
    var pc := At(s, t);
    match a
    case Call(_) => pc.Idle?
    case Allocate(e) => e !in s.pool && Allocating(pc)
    case AllocateFails => Allocating(pc)
    case Lock => pc.SetHolding? || pc.SyncHolding? || pc.RemoveCalled? || pc.LookupCalled? || pc.SyncCalled?
    case Reinitialize => pc.SyncCleared?
    case FreeEntry => pc.SetReturning? || pc.RemoveReturning? || pc.SyncReturning?
    case Return => pc.Done? || pc.Looked? || (pc.SyncAt? && pc.i == |pc.rs|)
  }

  /** The entries a step reads or writes: a walk and a private entry under the lock, or the entry it frees. */
  ghost function Touched<V>(s: System<V>, t: Tid, a: Action<V>): set<Addr> {
    (if a.Lock? then set i | 0 <= i < |s.list| :: s.list[i] else {})
    + (if (a.Lock? || a.FreeEntry?) && Private(At(s, t)).Some? then {Private(At(s, t)).value} else {})
  }

  /** Ready, and every entry the step touches is live; NoUseAfterFree shows that the first implies the second. */
  ghost predicate Enabled<V>(s: System<V>, t: Tid, a: Action<V>) {
    Ready(s, t, a) && Touched(s, t, a) <= s.pool.Keys
  }

  /** The record a thread that is allocating, or holds an allocated entry, is about to set. */
  function Argument<V>(pc: Pc<V>): Option<Record<V>> {
    match pc
    case SetCalled(arg) => arg
    case SetHolding(r, _) => Some(r)
    case SyncAt(rs, i) => if i < |rs| then Some(rs[i]) else None
    case SyncHolding(rs, i, _) => if i < |rs| then Some(rs[i]) else None
    case _ => None
  }

  predicate Acceptable<V>(arg: Option<Record<V>>) {
    arg.Some? && arg.value.version == RECORD_VERSION
  }

  /** The status of a Set that ends before its lock. */
  function EarlyStatus<V>(arg: Option<Record<V>>): NtStatus {
    if Acceptable(arg) then InsufficientResources else InvalidParameter
  }

  /** The thread moves on after its locked region: to the free if it still holds an entry. */
  function AfterSet<V>(pc: Pc<V>, linked: bool, status: NtStatus): Pc<V> {
    match pc
    case SetHolding(_, e) => if linked then Done(status) else SetReturning(e, status)
    case SyncHolding(rs, i, e) => if linked then SyncAt(rs, i + 1) else SyncReturning(rs, i, e, status)
    case _ => pc
  }

  /** The locked region of Set: update in place from the argument, refuse at capacity, or link the entry. */
  ghost function LockSet<V>(s: System<V>, t: Tid, r: Record<V>, e: Addr): System<V>
    requires Walkable(s.pool, s.list)
  {
    var k, pc := IndexOf(Contents(s.pool, s.list), r.key), At(s, t);
    if k < |s.list| then
      Move(Note(s.(pool := s.pool[s.list[k] := r]), SetDone(t, Some(r), true, Success)), t,
           AfterSet(pc, false, Success))
    else if MAX_ENTRIES <= s.count then
      Move(Note(s, SetDone(t, Some(r), true, InsufficientResources)), t, AfterSet(pc, false, InsufficientResources))
    else
      Move(Note(s.(list := s.list + [e], count := Add32(s.count, 1)), SetDone(t, Some(r), true, Success)), t,
           AfterSet(pc, true, Success))
  }

  ghost function LockRemove<V>(s: System<V>, t: Tid, key: AppId): System<V>
    requires Walkable(s.pool, s.list)
  {
    var k := IndexOf(Contents(s.pool, s.list), key);
    if k < |s.list| then
      Move(Note(s.(list := s.list[..k] + s.list[k + 1..], count := Add32(s.count, 0xFFFF_FFFF)),
                RemoveDone(t, key, Success)), t, RemoveReturning(s.list[k]))
    else
      Move(Note(s, RemoveDone(t, key, NotFound)), t, Done(NotFound))
  }

  ghost function LockLookup<V>(s: System<V>, t: Tid): System<V>
    requires Walkable(s.pool, s.list)
  {
    Move(Note(s, LookupDone(t, Contents(s.pool, s.list))), t, Looked(Contents(s.pool, s.list)))
  }

  /** The locked drain at the start of Sync frees every linked entry. */
  ghost function LockClear<V>(s: System<V>, t: Tid, rs: seq<Record<V>>): System<V> {
    Move(Note(s.(pool := map e | e in s.pool && e !in s.list :: s.pool[e], list := [], count := 0), ClearDone(t)),
         t, SyncCleared(rs))
  }

  /** Validation comes before the allocation, so only an acceptable argument gets an entry. */
  function AllocateStep<V>(s: System<V>, t: Tid, e: Addr): System<V>
    requires Allocating(At(s, t))
  {
    var arg, pc := Argument(At(s, t)), At(s, t);
    if !Acceptable(arg) then Move(Note(s, SetDone(t, arg, true, InvalidParameter)), t, Done(InvalidParameter))
    else
      Move(s.(pool := s.pool[e := arg.value]), t,
           if pc.SyncAt? then SyncHolding(pc.rs, pc.i, e) else SetHolding(arg.value, e))
  }

  function FailStep<V>(s: System<V>, t: Tid): System<V> {
    var arg := Argument(At(s, t));
    Move(Note(s, SetDone(t, arg, false, EarlyStatus(arg))), t, Done(EarlyStatus(arg)))
  }

  /** The unlocked re-initialisation: whatever is linked is forgotten. */
  function ReinitializeStep<V>(s: System<V>, t: Tid, rs: seq<Record<V>>): System<V> {
    Move(Note(s.(list := [], count := 0), Reset(t)), t, SyncAt(rs, 0))
  }

  function AfterFree<V>(pc: Pc<V>): Pc<V> {
    match pc
    case SetReturning(_, status) => Done(status)
    case SyncReturning(rs, i, _, status) => if status.Ok() then SyncAt(rs, i + 1) else Done(status)
    case _ => Done(Success)
  }

  function FreeStep<V>(s: System<V>, t: Tid, e: Addr): System<V> {
    Move(s.(pool := map d | d in s.pool && d != e :: s.pool[d]), t, AfterFree(At(s, t)))
  }

  function ReturnStep<V>(s: System<V>, t: Tid): System<V> {
    match At(s, t)
    case Done(status) => Move(Note(s, Returned(t, Status(status))), t, Idle)
    case Looked(seen) => Move(Note(s, Returned(t, Records(seen))), t, Idle)
    case _ => Move(s, t, Done(Success))
  }

  ghost function LockStep<V>(s: System<V>, t: Tid): System<V>
    requires Walkable(s.pool, s.list)
  {
    match At(s, t)
    case SetHolding(r, e) => LockSet(s, t, r, e)
    case SyncHolding(rs, i, e) => if i < |rs| then LockSet(s, t, rs[i], e) else s
    case RemoveCalled(key) => LockRemove(s, t, key)
    case LookupCalled => LockLookup(s, t)
    case SyncCalled(rs) => LockClear(s, t, rs)
    case _ => s
  }

  ghost function Exec<V>(s: System<V>, t: Tid, a: Action<V>): System<V>
    requires Enabled(s, t, a)
  {
    match a
    case Call(call) => Move(Note(s, Called(t, call)), t, StartPc(call, s.limit))
    case Allocate(e) => AllocateStep(s, t, e)
    case AllocateFails => FailStep(s, t)
    case Lock =>
      assert Walkable(s.pool, s.list) by {
        forall i | 0 <= i < |s.list| ensures s.list[i] in s.pool { assert s.list[i] in Touched(s, t, a); }
      }
      LockStep(s, t)
    case Reinitialize => ReinitializeStep(s, t, At(s, t).rs)
    case FreeEntry => FreeStep(s, t, Private(At(s, t)).value)
    case Return => ReturnStep(s, t)
  }

  // ----- the history -----

  /** The table the operations of a history leave when run one by one. */
  ghost function Replay<V>(log: seq<Entry<V>>): seq<Record<V>> {
    if log == [] then []
    else
      var t := Replay(log[..|log| - 1]);
      match log[|log| - 1]
      case SetDone(_, arg, alloc, _) => SetResult(t, arg, alloc).0
      case RemoveDone(_, key, _) => RemoveResult(t, key).0
      case ClearDone(_) => []
      case Reset(_) => []
      case _ => t
  }

  /** A thread's own events from its last call on. */
  ghost function Mine<V>(log: seq<Entry<V>>, t: Tid): seq<Entry<V>> {
    if log == [] then []
    else
      var p, e := Mine(log[..|log| - 1], t), log[|log| - 1];
      if e.t != t then p else if e.Called? then [e] else p + [e]
  }

  /** The events of a Sync that has set its first i records. */
  ghost function SyncEvents<V>(t: Tid, rs: seq<Record<V>>, i: nat): seq<Entry<V>>
    requires i <= |rs|
  {
    if i == 0 then [Called(t, CallSync(rs)), ClearDone(t), Reset(t)]
    else SyncEvents(t, rs, i - 1) + [SetDone(t, Some(rs[i - 1]), true, Success)]
  }

  /** A Sync that stopped at record i, with the status of that record's Set. */
  ghost predicate SyncStopped<V>(t: Tid, mine: seq<Entry<V>>, rs: seq<Record<V>>, i: nat, status: NtStatus) {
    && i < |rs| && !status.Ok()
    && exists alloc :: mine == SyncEvents(t, rs, i) + [SetDone(t, Some(rs[i]), alloc, status)]
  }

  /**
   The answer a call must give: the outcome of its single operation, which took effect between the
   call and the answer, or for a Sync the outcome of the operations it is made of.
   */
  ghost predicate Complete<V>(t: Tid, limit: nat, mine: seq<Entry<V>>, answer: Answer<V>) {
    mine != [] && mine[0].Called? && mine[0].t == t &&
    match mine[0].call
    case CallSet(arg) =>
      |mine| == 2 && mine[1].SetDone? && mine[1].arg == arg && answer == Status(mine[1].status)
    case CallRemove(key) =>
      |mine| == 2 && mine[1].RemoveDone? && mine[1].key == key && answer == Status(mine[1].status)
    case CallLookup =>
      |mine| == 2 && mine[1].LookupDone? && answer == Records(mine[1].seen)
    case CallSync(rs) =>
      if limit < |rs| then |mine| == 1 && answer == Status(InvalidParameter)
      else
        || (mine == SyncEvents(t, rs, |rs|) && answer == Status(Success))
        || (answer.Status? && exists i :: SyncStopped(t, mine, rs, i, answer.status))
  }

  /** Every operation computed what the sequential one computes at its place; every answer is its call's. */
  ghost predicate EntryOk<V>(e: Entry<V>, limit: nat, table: seq<Record<V>>, mine: seq<Entry<V>>) {
    match e
    case SetDone(_, arg, alloc, status) => status == SetResult(table, arg, alloc).1
    case RemoveDone(_, key, status) => status == RemoveResult(table, key).1
    case LookupDone(_, seen) => seen == table
    case Returned(t, answer) => Complete(t, limit, mine, answer)
    case _ => true
  }

  ghost predicate LogOk<V>(limit: nat, log: seq<Entry<V>>) {
    log == [] ||
    var p, e := log[..|log| - 1], log[|log| - 1];
    LogOk(limit, p) && EntryOk(e, limit, Replay(p), Mine(p, e.t))
  }

  /** What a thread's own events are while it stands at a point of its call. */
  ghost predicate Traced<V>(t: Tid, limit: nat, pc: Pc<V>, mine: seq<Entry<V>>) {
    match pc
    case Idle => true
    case SetCalled(arg) => mine == [Called(t, CallSet(arg))]
    case SetHolding(r, _) => mine == [Called(t, CallSet(Some(r)))]
    case SetReturning(_, status) => Complete(t, limit, mine, Status(status))
    case RemoveCalled(key) => mine == [Called(t, CallRemove(key))]
    case RemoveReturning(_) => Complete(t, limit, mine, Status(Success))
    case LookupCalled => mine == [Called(t, CallLookup)]
    case Looked(seen) => Complete(t, limit, mine, Records(seen))
    case SyncCalled(rs) => |rs| <= limit && mine == [Called(t, CallSync(rs))]
    case SyncCleared(rs) => |rs| <= limit && mine == [Called(t, CallSync(rs)), ClearDone(t)]
    case SyncAt(rs, i) => i <= |rs| <= limit && mine == SyncEvents(t, rs, i)
    case SyncHolding(rs, i, _) => i < |rs| <= limit && mine == SyncEvents(t, rs, i)
    case SyncReturning(rs, i, _, status) =>
      && i < |rs| <= limit && mine == SyncEvents(t, rs, i) + [SetDone(t, Some(rs[i]), true, status)]
      && (status.Ok() ==> status == Success)
    case Done(status) => Complete(t, limit, mine, Status(status))
  }

  // ----- invariant -----

  ghost predicate Holds<V>(s: System<V>, t: Tid, e: Addr) {
    t in s.pcs && Private(s.pcs[t]) == Some(e)
  }

  /** The list is a well-formed table whose counter is exact. */
  ghost predicate ListOk<V>(s: System<V>) {
    && Walkable(s.pool, s.list)
    && (forall i, j :: 0 <= i < j < |s.list| ==> s.list[i] != s.list[j])
    && s.count == |s.list| <= MAX_ENTRIES
    && Distinct(Contents(s.pool, s.list))
  }

  /** A live entry that is not linked. */
  ghost predicate Outside<V>(s: System<V>, e: Addr) {
    e in s.pool && e !in s.list
  }

  /** Privately held entries are live and not linked, and each is held by one thread. */
  ghost predicate Owned<V>(s: System<V>) {
    && (forall t, e :: Holds(s, t, e) ==> Outside(s, e))
    && (forall t, u, e :: Holds(s, t, e) && Holds(s, u, e) ==> t == u)
  }

  /** An entry about to be installed is a copy of its acceptable argument. */
  ghost predicate HeldClause<V>(s: System<V>, pc: Pc<V>) {
    pc.SetHolding? || pc.SyncHolding? ==>
      Acceptable(Argument(pc)) && pc.e in s.pool && s.pool[pc.e] == Argument(pc).value
  }

  ghost predicate HeldOk<V>(s: System<V>) {
    forall t :: t in s.pcs ==> HeldClause(s, s.pcs[t])
  }

  ghost predicate AllTraced<V>(s: System<V>) {
    forall t :: t in s.pcs ==> Traced(t, s.limit, s.pcs[t], Mine(s.log, t))
  }

  ghost predicate Logged<V>(s: System<V>)
    requires Walkable(s.pool, s.list)
  {
    Contents(s.pool, s.list) == Replay(s.log) && LogOk(s.limit, s.log)
  }

  /** What every schedule keeps, exclusive or not. */
  ghost predicate Inv<V>(s: System<V>) {
    ListOk(s) && Owned(s) && HeldOk(s) && AllTraced(s) && Logged(s) && s.limit <= MAX_ENTRIES
  }

  /** The live entries that nothing reaches any more: not linked and held by no thread. */
  ghost function Lost<V>(s: System<V>): set<Addr> {
    set e | e in s.pool && Outside(s, e) && forall t :: t in s.pcs ==> Private(s.pcs[t]) != Some(e)
  }

  // ----- one step of one thread -----

  lemma LogStep<V>(log: seq<Entry<V>>, e: Entry<V>)
    ensures (log + [e])[..|log + [e]| - 1] == log && (log + [e])[|log + [e]| - 1] == e
    ensures forall u :: u != e.t ==> Mine(log + [e], u) == Mine(log, u)
    ensures Mine(log + [e], e.t) == if e.Called? then [e] else Mine(log, e.t) + [e]
  {
    assert (log + [e])[..|log + [e]| - 1] == log;
  }

  /** Threads other than the stepping one keep their traces. */
  lemma TracedTransfer<V>(s: System<V>, s': System<V>, t: Tid, pc: Pc<V>)
    requires AllTraced(s) && s'.pcs == s.pcs[t := pc] && s'.limit == s.limit
    requires s'.log == s.log || (s'.log != [] && s'.log[..|s'.log| - 1] == s.log && s'.log[|s'.log| - 1].t == t)
    requires Traced(t, s.limit, pc, Mine(s'.log, t))
    ensures AllTraced(s')
  {
    assert forall u :: u != t ==> Mine(s'.log, u) == Mine(s.log, u);
  }

  /** What a step of t must show about entries; `lost` are the linked ones it forgets. */
  lemma OwnedTransfer<V>(s: System<V>, s': System<V>, t: Tid, pc: Pc<V>, lost: set<Addr>)
    requires Owned(s) && HeldOk(s) && s'.pcs == s.pcs[t := pc]
    requires forall e: Addr :: Outside(s, e) && Private(At(s, t)) != Some(e) ==>
               Outside(s', e) && s'.pool[e] == s.pool[e]
    requires forall e: Addr :: Outside(s', e) && Private(pc) != Some(e) ==>
               e in lost || (Outside(s, e) && Private(At(s, t)) != Some(e))
    requires forall e: Addr :: e in lost ==> Outside(s', e) && !Outside(s, e) && Private(pc) != Some(e)
    requires Private(pc).Some? ==>
               Outside(s', Private(pc).value) && (Private(pc) == Private(At(s, t)) || !Outside(s, Private(pc).value))
    requires HeldClause(s', pc)
    ensures Owned(s') && HeldOk(s')
    ensures Lost(s') == Lost(s) + lost
  {
    OthersKeepEntries(s, s', t, pc);
    LostTransfer(s, s', t, pc, lost);
  }

  lemma OthersKeepEntries<V>(s: System<V>, s': System<V>, t: Tid, pc: Pc<V>)
    requires Owned(s) && HeldOk(s) && s'.pcs == s.pcs[t := pc]
    requires forall e: Addr :: Outside(s, e) && Private(At(s, t)) != Some(e) ==>
               Outside(s', e) && s'.pool[e] == s.pool[e]
    requires Private(pc).Some? ==>
               Outside(s', Private(pc).value) && (Private(pc) == Private(At(s, t)) || !Outside(s, Private(pc).value))
    requires HeldClause(s', pc)
    ensures Owned(s') && HeldOk(s')
  {
    forall u: Tid, e: Addr | Holds(s', u, e)
      ensures Outside(s', e) && (u == t || (Holds(s, u, e) && Private(At(s, t)) != Some(e)))
    {
      if u != t {
        assert Holds(s, u, e);
        if t in s.pcs { assert Private(At(s, t)) == Some(e) ==> Holds(s, t, e); }
      }
    }
    forall u | u in s'.pcs ensures HeldClause(s', s'.pcs[u]) {
      if u != t && (s.pcs[u].SetHolding? || s.pcs[u].SyncHolding?) {
        assert Holds(s', u, s.pcs[u].e) && Holds(s, u, s.pcs[u].e);
      }
    }
  }

  lemma LostTransfer<V>(s: System<V>, s': System<V>, t: Tid, pc: Pc<V>, lost: set<Addr>)
    requires Owned(s) && s'.pcs == s.pcs[t := pc]
    requires forall e: Addr :: Outside(s, e) && Private(At(s, t)) != Some(e) ==> Outside(s', e)
    requires forall e: Addr :: Outside(s', e) && Private(pc) != Some(e) ==>
               e in lost || (Outside(s, e) && Private(At(s, t)) != Some(e))
    requires forall e: Addr :: e in lost ==> Outside(s', e) && !Outside(s, e) && Private(pc) != Some(e)
    requires Private(pc).Some? ==> Private(pc) == Private(At(s, t)) || !Outside(s, Private(pc).value)
    ensures Lost(s') == Lost(s) + lost
  {
    forall e: Addr ensures e in Lost(s') <==> e in Lost(s) || e in lost {
      if e in Lost(s) {
        assert Private(At(s, t)) != Some(e);
        forall u | u in s'.pcs ensures Private(s'.pcs[u]) != Some(e) {
          if u != t { assert u in s.pcs; }
        }
      }
      if e in lost {
        forall u | u in s'.pcs ensures Private(s'.pcs[u]) != Some(e) {
          if u != t { assert Private(s.pcs[u]) == Some(e) ==> Holds(s, u, e); }
        }
      }
      if e in Lost(s') && e !in lost {
        assert t in s'.pcs && Private(s'.pcs[t]) != Some(e);
        forall u | u in s.pcs ensures Private(s.pcs[u]) != Some(e) {
          if u != t { assert s'.pcs[u] == s.pcs[u]; }
        }
      }
    }
  }

  lemma ContentsFrame<V>(pool: map<Addr, Record<V>>, pool': map<Addr, Record<V>>, list: seq<Addr>)
    requires Walkable(pool, list)
    requires forall i :: 0 <= i < |list| ==> list[i] in pool' && pool'[list[i]] == pool[list[i]]
    ensures Walkable(pool', list) && Contents(pool', list) == Contents(pool, list)
  {
  }

  lemma ContentsAppend<V>(pool: map<Addr, Record<V>>, list: seq<Addr>, e: Addr)
    requires Walkable(pool, list) && e in pool
    ensures Walkable(pool, list + [e]) && Contents(pool, list + [e]) == Contents(pool, list) + [pool[e]]
  {
  }

  lemma ContentsDrop<V>(pool: map<Addr, Record<V>>, list: seq<Addr>, k: nat)
    requires Walkable(pool, list) && k < |list|
    ensures var d, c := list[..k] + list[k + 1..], Contents(pool, list);
            Walkable(pool, d) && Contents(pool, d) == c[..k] + c[k + 1..]
  {
    var d := list[..k] + list[k + 1..];
    assert forall i :: 0 <= i < |d| ==> d[i] == list[if i < k then i else i + 1];
  }

  lemma {:induction false} SyncEventsHead<V>(t: Tid, rs: seq<Record<V>>, i: nat)
    requires i <= |rs|
    ensures |SyncEvents(t, rs, i)| == 3 + i && SyncEvents(t, rs, i)[0] == Called(t, CallSync(rs))
  {
    if 0 < i { SyncEventsHead(t, rs, i - 1); }
  }

  lemma StoppedIsComplete<V>(t: Tid, limit: nat, rs: seq<Record<V>>, i: nat, alloc: bool, status: NtStatus)
    requires i < |rs| <= limit && !status.Ok()
    ensures Complete(t, limit, SyncEvents(t, rs, i) + [SetDone(t, Some(rs[i]), alloc, status)], Status(status))
  {
    SyncEventsHead(t, rs, i);
    assert SyncStopped(t, SyncEvents(t, rs, i) + [SetDone(t, Some(rs[i]), alloc, status)], rs, i, status);
  }

  lemma FinishedIsComplete<V>(t: Tid, limit: nat, rs: seq<Record<V>>)
    requires |rs| <= limit
    ensures Complete(t, limit, SyncEvents(t, rs, |rs|), Status(Success))
  {
    SyncEventsHead(t, rs, |rs|);
  }

  /** What a Set that ended, at its lock or before, leaves its thread to answer or go on with. */
  lemma SetTraced<V>(s: System<V>, t: Tid, alloc: bool, status: NtStatus, e: Addr, linked: bool)
    requires AllTraced(s) && t in s.pcs
    requires Allocating(At(s, t)) || At(s, t).SetHolding? || At(s, t).SyncHolding?
    ensures var pc, mine := At(s, t), Mine(s.log, t) + [SetDone(t, Argument(At(s, t)), alloc, status)];
            && (Allocating(pc) && !status.Ok() ==> Traced(t, s.limit, Done(status), mine))
            && (!Allocating(pc) && alloc && (linked || status.Ok() ==> status == Success) ==>
                  Traced(t, s.limit, AfterSet(pc, linked, status), mine))
  {
    var pc := At(s, t);
    assert Traced(t, s.limit, pc, Mine(s.log, t));
    if pc.SyncAt? && !status.Ok() { StoppedIsComplete(t, s.limit, pc.rs, pc.i, alloc, status); }
  }

  /** A step that changes no entry and no link, with at most one event that leaves the table alone. */
  lemma QuietKeeps<V>(s: System<V>, s': System<V>, t: Tid, pc: Pc<V>)
    requires Inv(s) && Private(pc) == None && Private(At(s, t)) == None
    requires s' == Move(s.(log := s'.log), t, pc)
    requires s'.log == s.log || (s'.log != [] && s'.log[..|s'.log| - 1] == s.log && s'.log[|s'.log| - 1].t == t)
    requires Replay(s'.log) == Replay(s.log) && LogOk(s.limit, s'.log)
    requires Traced(t, s.limit, pc, Mine(s'.log, t))
    ensures Inv(s') && Lost(s') == Lost(s)
  {
    OwnedTransfer(s, s', t, pc, {});
    TracedTransfer(s, s', t, pc);
  }

  lemma CallKeeps<V>(s: System<V>, t: Tid, call: Request<V>)
    requires Inv(s) && At(s, t).Idle?
    ensures var s' := Move(Note(s, Called(t, call)), t, StartPc(call, s.limit)); Inv(s') && Lost(s') == Lost(s)
  {
    LogStep(s.log, Called(t, call));
    QuietKeeps(s, Move(Note(s, Called(t, call)), t, StartPc(call, s.limit)), t, StartPc(call, s.limit));
  }

  lemma FinishKeeps<V>(s: System<V>, t: Tid)
    requires Inv(s) && At(s, t).SyncAt? && At(s, t).i == |At(s, t).rs|
    ensures Inv(ReturnStep(s, t)) && Lost(ReturnStep(s, t)) == Lost(s)
  {
    assert Traced(t, s.limit, At(s, t), Mine(s.log, t));
    FinishedIsComplete(t, s.limit, At(s, t).rs);
    QuietKeeps(s, ReturnStep(s, t), t, Done(Success));
  }

  lemma AnswerKeeps<V>(s: System<V>, t: Tid, answer: Answer<V>)
    requires Inv(s) && t in s.pcs && Private(At(s, t)) == None && Complete(t, s.limit, Mine(s.log, t), answer)
    ensures var s' := Move(Note(s, Returned(t, answer)), t, Idle); Inv(s') && Lost(s') == Lost(s)
  {
    LogStep(s.log, Returned(t, answer));
    QuietKeeps(s, Move(Note(s, Returned(t, answer)), t, Idle), t, Idle);
  }

  lemma ReturnKeeps<V>(s: System<V>, t: Tid)
    requires Inv(s) && Ready(s, t, Return)
    ensures Inv(ReturnStep(s, t)) && Lost(ReturnStep(s, t)) == Lost(s)
  {
    assert Traced(t, s.limit, At(s, t), Mine(s.log, t));
    match At(s, t)
    case Done(status) => AnswerKeeps(s, t, Status(status));
    case Looked(seen) => AnswerKeeps(s, t, Records(seen));
    case _ => FinishKeeps(s, t);
  }

  /** A Set that ends before its lock changes nothing, whatever the table. */
  lemma EarlyResult<V>(table: seq<Record<V>>, arg: Option<Record<V>>, alloc: bool)
    requires !Acceptable(arg) || !alloc
    ensures SetResult(table, arg, alloc) == (table, EarlyStatus(arg))
  {
  }

  lemma FailKeeps<V>(s: System<V>, t: Tid)
    requires Inv(s) && Allocating(At(s, t))
    ensures Inv(FailStep(s, t)) && Lost(FailStep(s, t)) == Lost(s)
  {
    var arg := Argument(At(s, t));
    LogStep(s.log, SetDone(t, arg, false, EarlyStatus(arg)));
    EarlyResult(Replay(s.log), arg, false);
    SetTraced(s, t, false, EarlyStatus(arg), 0, false);
    QuietKeeps(s, FailStep(s, t), t, Done(EarlyStatus(arg)));
  }

  lemma RejectKeeps<V>(s: System<V>, t: Tid, e: Addr)
    requires Inv(s) && Allocating(At(s, t)) && !Acceptable(Argument(At(s, t)))
    ensures Inv(AllocateStep(s, t, e)) && Lost(AllocateStep(s, t, e)) == Lost(s)
  {
    var arg := Argument(At(s, t));
    LogStep(s.log, SetDone(t, arg, true, InvalidParameter));
    EarlyResult(Replay(s.log), arg, true);
    SetTraced(s, t, true, InvalidParameter, 0, false);
    QuietKeeps(s, AllocateStep(s, t, e), t, Done(InvalidParameter));
  }

  lemma AllocateOwned<V>(s: System<V>, t: Tid, e: Addr)
    requires Owned(s) && HeldOk(s) && Allocating(At(s, t)) && Acceptable(Argument(At(s, t))) && e !in s.pool
    requires Walkable(s.pool, s.list)
    ensures var s' := AllocateStep(s, t, e); Owned(s') && HeldOk(s') && Lost(s') == Lost(s)
  {
    OwnedTransfer(s, AllocateStep(s, t, e), t, At(AllocateStep(s, t, e), t), {});
  }

  lemma AllocateKeeps<V>(s: System<V>, t: Tid, e: Addr)
    requires Inv(s) && Allocating(At(s, t)) && Acceptable(Argument(At(s, t))) && e !in s.pool
    ensures Inv(AllocateStep(s, t, e)) && Lost(AllocateStep(s, t, e)) == Lost(s)
  {
    var s' := AllocateStep(s, t, e);
    assert Traced(t, s.limit, At(s, t), Mine(s.log, t));
    ContentsFrame(s.pool, s'.pool, s.list);
    AllocateOwned(s, t, e);
    TracedTransfer(s, s', t, At(s', t));
  }

  lemma AllocateStepKeeps<V>(s: System<V>, t: Tid, e: Addr)
    requires Inv(s) && Ready(s, t, Allocate(e))
    ensures Inv(AllocateStep(s, t, e)) && Lost(AllocateStep(s, t, e)) == Lost(s)
  {
    if Acceptable(Argument(At(s, t))) { AllocateKeeps(s, t, e); } else { RejectKeeps(s, t, e); }
  }

  lemma FreeTraced<V>(s: System<V>, t: Tid)
    requires Inv(s) && Ready(s, t, FreeEntry)
    ensures Traced(t, s.limit, AfterFree(At(s, t)), Mine(s.log, t))
  {
    var pc := At(s, t);
    assert Traced(t, s.limit, pc, Mine(s.log, t));
    if pc.SyncReturning? && !pc.status.Ok() { StoppedIsComplete(t, s.limit, pc.rs, pc.i, true, pc.status); }
  }

  lemma FreeOwned<V>(s: System<V>, t: Tid, e: Addr)
    requires Owned(s) && HeldOk(s) && Private(At(s, t)) == Some(e) && Outside(s, e)
    ensures var s' := FreeStep(s, t, e); Owned(s') && HeldOk(s') && Lost(s') == Lost(s)
  {
    OwnedTransfer(s, FreeStep(s, t, e), t, AfterFree(At(s, t)), {});
  }

  lemma FreeKeeps<V>(s: System<V>, t: Tid, e: Addr)
    requires Inv(s) && Ready(s, t, FreeEntry) && Private(At(s, t)) == Some(e)
    ensures Inv(FreeStep(s, t, e)) && Lost(FreeStep(s, t, e)) == Lost(s)
  {
    assert Holds(s, t, e);
    var s' := FreeStep(s, t, e);
    ContentsFrame(s.pool, s'.pool, s.list);
    FreeOwned(s, t, e);
    FreeTraced(s, t);
    TracedTransfer(s, s', t, AfterFree(At(s, t)));
  }

  predicate Installing<V>(pc: Pc<V>) {
    pc.SetHolding? || (pc.SyncHolding? && pc.i < |pc.rs|)
  }

  /** The event of a locked Set, and what it leaves the thread to do. */
  lemma LockTraced<V>(s: System<V>, s': System<V>, t: Tid, linked: bool, status: NtStatus)
    requires Inv(s) && t in s.pcs && Installing(At(s, t)) && HeldClause(s, At(s, t))
    requires (linked || status.Ok() ==> status == Success)
    requires s'.log == s.log + [SetDone(t, Argument(At(s, t)), true, status)] && s'.limit == s.limit
    requires s'.pcs == s.pcs[t := AfterSet(At(s, t), linked, status)]
    requires status == SetResult(Replay(s.log), Argument(At(s, t)), true).1
    ensures AllTraced(s') && LogOk(s'.limit, s'.log)
    ensures Replay(s'.log) == SetResult(Replay(s.log), Argument(At(s, t)), true).0
  {
    LogStep(s.log, SetDone(t, Argument(At(s, t)), true, status));
    SetTraced(s, t, true, status, 0, linked);
    TracedTransfer(s, s', t, AfterSet(At(s, t), linked, status));
  }

  lemma LockUpdateKeeps<V>(s: System<V>, t: Tid, r: Record<V>, e: Addr)
    requires Inv(s) && Installing(At(s, t)) && Argument(At(s, t)) == Some(r) && Holds(s, t, e)
    requires Contains(Contents(s.pool, s.list), r.key)
    ensures Inv(LockSet(s, t, r, e)) && Lost(LockSet(s, t, r, e)) == Lost(s)
  {
    var c, s' := Contents(s.pool, s.list), LockSet(s, t, r, e);
    assert HeldClause(s, At(s, t)) && Outside(s, e);
    UpdateListOk(s, s', r);
    LockTraced(s, s', t, false, Success);
    OwnedTransfer(s, s', t, AfterSet(At(s, t), false, Success), {});
  }

  lemma UpdateListOk<V>(s: System<V>, s': System<V>, r: Record<V>)
    requires ListOk(s) && Contains(Contents(s.pool, s.list), r.key)
    requires s'.pool == s.pool[s.list[IndexOf(Contents(s.pool, s.list), r.key)] := r]
    requires s'.list == s.list && s'.count == s.count
    ensures ListOk(s') && Contents(s'.pool, s'.list) == Upsert(Contents(s.pool, s.list), r)
  {
    var c := Contents(s.pool, s.list);
    UpsertLaws(c, r);
    assert Contents(s'.pool, s'.list) == Upsert(c, r);
  }

  lemma LockRefuseKeeps<V>(s: System<V>, t: Tid, r: Record<V>, e: Addr)
    requires Inv(s) && Installing(At(s, t)) && Argument(At(s, t)) == Some(r) && Holds(s, t, e)
    requires !Contains(Contents(s.pool, s.list), r.key) && MAX_ENTRIES <= s.count
    ensures Inv(LockSet(s, t, r, e)) && Lost(LockSet(s, t, r, e)) == Lost(s)
  {
    var s' := LockSet(s, t, r, e);
    assert HeldClause(s, At(s, t)) && Outside(s, e);
    LockTraced(s, s', t, false, InsufficientResources);
    OwnedTransfer(s, s', t, AfterSet(At(s, t), false, InsufficientResources), {});
  }

  lemma LockLinkKeeps<V>(s: System<V>, t: Tid, r: Record<V>, e: Addr)
    requires Inv(s) && Installing(At(s, t)) && Argument(At(s, t)) == Some(r) && Holds(s, t, e)
    requires !Contains(Contents(s.pool, s.list), r.key) && s.count < MAX_ENTRIES
    ensures Inv(LockSet(s, t, r, e)) && Lost(LockSet(s, t, r, e)) == Lost(s)
  {
    var s' := LockSet(s, t, r, e);
    assert HeldClause(s, At(s, t)) && Outside(s, e);
    LinkListOk(s, s', e);
    LockTraced(s, s', t, true, Success);
    LinkOwned(s, s', t, e, AfterSet(At(s, t), true, Success));
  }

  lemma LinkListOk<V>(s: System<V>, s': System<V>, e: Addr)
    requires ListOk(s) && Outside(s, e) && s.count < MAX_ENTRIES
    requires !Contains(Contents(s.pool, s.list), s.pool[e].key)
    requires s'.pool == s.pool && s'.list == s.list + [e] && s'.count == s.count + 1
    ensures ListOk(s') && Contents(s'.pool, s'.list) == Upsert(Contents(s.pool, s.list), s.pool[e])
  {
    ContentsAppend(s.pool, s.list, e);
    UpsertLaws(Contents(s.pool, s.list), s.pool[e]);
  }

  lemma LinkOwned<V>(s: System<V>, s': System<V>, t: Tid, e: Addr, pc: Pc<V>)
    requires Owned(s) && HeldOk(s) && Holds(s, t, e) && Private(pc) == None
    requires s'.pool == s.pool && s'.list == s.list + [e] && s'.pcs == s.pcs[t := pc]
    ensures Owned(s') && HeldOk(s') && Lost(s') == Lost(s)
  {
    OwnedTransfer(s, s', t, pc, {});
  }

  lemma LockRemoveKeeps<V>(s: System<V>, t: Tid, key: AppId)
    requires Inv(s) && At(s, t) == RemoveCalled(key)
    ensures Inv(LockRemove(s, t, key)) && Lost(LockRemove(s, t, key)) == Lost(s)
  {
    var c := Contents(s.pool, s.list);
    assert t in s.pcs && Traced(t, s.limit, At(s, t), Mine(s.log, t));
    if Contains(c, key) {
      LogStep(s.log, RemoveDone(t, key, Success));
      UnlinkKeeps(s, t, key);
    } else {
      LogStep(s.log, RemoveDone(t, key, NotFound));
      QuietKeeps(s, LockRemove(s, t, key), t, Done(NotFound));
    }
  }

  lemma UnlinkKeeps<V>(s: System<V>, t: Tid, key: AppId)
    requires Inv(s) && At(s, t) == RemoveCalled(key) && Contains(Contents(s.pool, s.list), key)
    requires t in s.pcs && Mine(s.log, t) == [Called(t, CallRemove(key))]
    ensures Inv(LockRemove(s, t, key)) && Lost(LockRemove(s, t, key)) == Lost(s)
  {
    var k, s' := IndexOf(Contents(s.pool, s.list), key), LockRemove(s, t, key);
    LogStep(s.log, RemoveDone(t, key, Success));
    UnlinkListOk(s, s', key);
    UnlinkOwned(s, s', t, k);
    TracedTransfer(s, s', t, RemoveReturning(s.list[k]));
  }

  lemma UnlinkListOk<V>(s: System<V>, s': System<V>, key: AppId)
    requires ListOk(s) && Contains(Contents(s.pool, s.list), key)
    requires var k := IndexOf(Contents(s.pool, s.list), key);
             s'.pool == s.pool && s'.list == s.list[..k] + s.list[k + 1..] && s'.count == s.count - 1
    ensures ListOk(s') && Contents(s'.pool, s'.list) == Delete(Contents(s.pool, s.list), key)
  {
    var c := Contents(s.pool, s.list);
    ContentsDrop(s.pool, s.list, IndexOf(c, key));
    L.DropAt(s.list, IndexOf(c, key));
    DeleteLaws(c, key);
  }

  lemma UnlinkOwned<V>(s: System<V>, s': System<V>, t: Tid, k: nat)
    requires ListOk(s) && Owned(s) && HeldOk(s) && Private(At(s, t)) == None && k < |s.list|
    requires s'.pool == s.pool && s'.list == s.list[..k] + s.list[k + 1..]
    requires s'.pcs == s.pcs[t := RemoveReturning(s.list[k])]
    ensures Owned(s') && HeldOk(s') && Lost(s') == Lost(s)
  {
    L.DropAt(s.list, k);
    OwnedTransfer(s, s', t, RemoveReturning(s.list[k]), {});
  }

  lemma LockLookupKeeps<V>(s: System<V>, t: Tid)
    requires Inv(s) && At(s, t) == LookupCalled
    ensures Inv(LockLookup(s, t)) && Lost(LockLookup(s, t)) == Lost(s)
  {
    assert t in s.pcs && Traced(t, s.limit, At(s, t), Mine(s.log, t));
    LogStep(s.log, LookupDone(t, Contents(s.pool, s.list)));
    QuietKeeps(s, LockLookup(s, t), t, Looked(Contents(s.pool, s.list)));
  }

  lemma LockClearKeeps<V>(s: System<V>, t: Tid, rs: seq<Record<V>>)
    requires Inv(s) && At(s, t) == SyncCalled(rs)
    ensures Inv(LockClear(s, t, rs)) && Lost(LockClear(s, t, rs)) == Lost(s)
  {
    var s' := LockClear(s, t, rs);
    assert t in s.pcs && Traced(t, s.limit, At(s, t), Mine(s.log, t));
    assert Contents(s'.pool, []) == [];
    LogStep(s.log, ClearDone(t));
    OwnedTransfer(s, s', t, SyncCleared(rs), {});
    TracedTransfer(s, s', t, SyncCleared(rs));
  }

  ghost function Members(list: seq<Addr>): set<Addr> {
    set i | 0 <= i < |list| :: list[i]
  }

  lemma ReinitializeOwned<V>(s: System<V>, t: Tid, rs: seq<Record<V>>)
    requires Owned(s) && HeldOk(s) && Walkable(s.pool, s.list) && At(s, t) == SyncCleared(rs)
    ensures var s' := ReinitializeStep(s, t, rs); Owned(s') && HeldOk(s') && Lost(s') == Lost(s) + Members(s.list)
  {
    OwnedTransfer(s, ReinitializeStep(s, t, rs), t, SyncAt(rs, 0), Members(s.list));
  }

  /** The unlocked re-initialisation loses exactly the entries it finds linked. */
  lemma ReinitializeKeeps<V>(s: System<V>, t: Tid, rs: seq<Record<V>>)
    requires Inv(s) && At(s, t) == SyncCleared(rs)
    ensures Inv(ReinitializeStep(s, t, rs)) && Lost(ReinitializeStep(s, t, rs)) == Lost(s) + Members(s.list)
  {
    var s' := ReinitializeStep(s, t, rs);
    assert t in s.pcs && Traced(t, s.limit, At(s, t), Mine(s.log, t));
    assert Contents(s'.pool, []) == [];
    LogStep(s.log, Reset(t));
    ReinitializeOwned(s, t, rs);
    TracedTransfer(s, s', t, SyncAt(rs, 0));
  }

  lemma LockSetKeeps<V>(s: System<V>, t: Tid, r: Record<V>, e: Addr)
    requires Inv(s) && Installing(At(s, t)) && Argument(At(s, t)) == Some(r) && Holds(s, t, e)
    ensures Inv(LockSet(s, t, r, e)) && Lost(LockSet(s, t, r, e)) == Lost(s)
  {
    if Contains(Contents(s.pool, s.list), r.key) { LockUpdateKeeps(s, t, r, e); }
    else if MAX_ENTRIES <= s.count { LockRefuseKeeps(s, t, r, e); }
    else { LockLinkKeeps(s, t, r, e); }
  }

  lemma LockKeeps<V>(s: System<V>, t: Tid)
    requires Inv(s) && Ready(s, t, Lock)
    ensures Inv(LockStep(s, t)) && Lost(LockStep(s, t)) == Lost(s)
  {
    assert HeldClause(s, At(s, t));
    match At(s, t)
    case SetHolding(r, e) => assert Holds(s, t, e); LockSetKeeps(s, t, r, e);
    case SyncHolding(rs, i, e) => assert Holds(s, t, e); LockSetKeeps(s, t, rs[i], e);
    case RemoveCalled(key) => LockRemoveKeeps(s, t, key);
    case LookupCalled => LockLookupKeeps(s, t);
    case SyncCalled(rs) => LockClearKeeps(s, t, rs);
    case _ =>
  }

  /** The entries a step loses: those a re-initialisation finds linked. */
  ghost function LostBy<V>(s: System<V>, a: Action<V>): set<Addr> {
    if a.Reinitialize? then Members(s.list) else {}
  }

  lemma ExecKeeps<V>(s: System<V>, t: Tid, a: Action<V>)
    requires Inv(s) && Enabled(s, t, a)
    ensures Inv(Exec(s, t, a)) && Lost(Exec(s, t, a)) == Lost(s) + LostBy(s, a)
  {
    match a
    case Call(call) => CallKeeps(s, t, call);
    case Allocate(e) => AllocateStepKeeps(s, t, e);
    case AllocateFails => FailKeeps(s, t);
    case Lock => LockKeeps(s, t);
    case Reinitialize => ReinitializeKeeps(s, t, At(s, t).rs);
    case FreeEntry => FreeKeeps(s, t, Private(At(s, t)).value);
    case Return => ReturnKeeps(s, t);
  }

  // ----- every interleaving -----

  /** A scheduled step takes place if its thread is ready for it and, in exclusive schedules, it may start. */
  ghost predicate Happens<V>(exclusive: bool, s: System<V>, t: Tid, a: Action<V>) {
    Enabled(s, t, a) && (exclusive ==> Exclusive(s, a))
  }

  ghost function RunAll<V>(exclusive: bool, s: System<V>, steps: seq<(Tid, Action<V>)>): System<V> {
    if steps == [] then s
    else
      var s1 := RunAll(exclusive, s, steps[..|steps| - 1]);
      var (t, a) := steps[|steps| - 1];
      if Happens(exclusive, s1, t, a) then Exec(s1, t, a) else s1
  }

  ghost function Initial<V>(limit: nat): System<V> {
    System(map[], [], 0, map[], limit, [])
  }

  lemma InitialInv<V>(limit: nat)
    requires limit <= MAX_ENTRIES
    ensures Inv(Initial<V>(limit)) && Lost(Initial<V>(limit)) == {}
  {
    assert Contents<V>(map[], []) == [];
  }

  lemma {:induction false} EveryInterleaving<V>(exclusive: bool, s: System<V>, steps: seq<(Tid, Action<V>)>)
    requires Inv(s)
    ensures Inv(RunAll(exclusive, s, steps))
  {
    if steps != [] {
      EveryInterleaving(exclusive, s, steps[..|steps| - 1]);
      var s1 := RunAll(exclusive, s, steps[..|steps| - 1]);
      var (t, a) := steps[|steps| - 1];
      if Happens(exclusive, s1, t, a) { ExecKeeps(s1, t, a); }
    }
  }

  /** A step a thread is ready for touches only live entries, and frees only what nothing else can reach. */
  lemma ReadyIsEnabled<V>(s: System<V>, t: Tid, a: Action<V>)
    requires Inv(s) && Ready(s, t, a)
    ensures Enabled(s, t, a)
    ensures a.FreeEntry? ==> var e := Private(At(s, t)).value; Outside(s, e) && forall u :: Holds(s, u, e) ==> u == t
  {
    if Private(At(s, t)).Some? { assert Holds(s, t, Private(At(s, t)).value); }
  }

  /**
   No step of any schedule, exclusive or not, reads, writes or frees an entry that was freed, and
   no entry is freed while it is linked or held by another thread.
   */
  lemma NoUseAfterFree<V>(exclusive: bool, limit: nat, steps: seq<(Tid, Action<V>)>, t: Tid, a: Action<V>)
    requires limit <= MAX_ENTRIES && Ready(RunAll(exclusive, Initial<V>(limit), steps), t, a)
    ensures var s := RunAll(exclusive, Initial<V>(limit), steps);
            && Touched(s, t, a) <= s.pool.Keys
            && (a.FreeEntry? ==>
                  var e := Private(At(s, t)).value;
                  e in s.pool && e !in s.list && forall u :: Holds(s, u, e) ==> u == t)
  {
    InitialInv<V>(limit);
    EveryInterleaving(exclusive, Initial<V>(limit), steps);
    ReadyIsEnabled(RunAll(exclusive, Initial<V>(limit), steps), t, a);
  }

  lemma {:induction false} LogOkAt<V>(limit: nat, log: seq<Entry<V>>, n: nat)
    requires LogOk(limit, log) && n < |log|
    ensures EntryOk(log[n], limit, Replay(log[..n]), Mine(log[..n], log[n].t))
  {
    if n < |log| - 1 {
      LogOkAt(limit, log[..|log| - 1], n);
      assert log[..|log| - 1][..n] == log[..n];
    }
  }

  /**
   Linearizability of every schedule, exclusive or not: the table is the one the history's
   operations leave when run one by one; each operation had the outcome the sequential one has at
   its place; and every answer a call returned is the outcome of its own operation, which took
   effect after the call and before the answer.
   */
  lemma Linearizable<V>(exclusive: bool, limit: nat, steps: seq<(Tid, Action<V>)>)
    requires limit <= MAX_ENTRIES
    ensures var s := RunAll(exclusive, Initial<V>(limit), steps);
            && Walkable(s.pool, s.list) && Contents(s.pool, s.list) == Replay(s.log)
            && forall n :: 0 <= n < |s.log| ==>
                 EntryOk(s.log[n], limit, Replay(s.log[..n]), Mine(s.log[..n], s.log[n].t))
  {
    InitialInv<V>(limit);
    var s := RunAll(exclusive, Initial<V>(limit), steps);
    EveryInterleaving(exclusive, Initial<V>(limit), steps);
    LimitKept(exclusive, Initial<V>(limit), steps);
    forall n | 0 <= n < |s.log| ensures EntryOk(s.log[n], limit, Replay(s.log[..n]), Mine(s.log[..n], s.log[n].t)) {
      LogOkAt(limit, s.log, n);
    }
  }

  lemma {:induction false} LimitKept<V>(exclusive: bool, s: System<V>, steps: seq<(Tid, Action<V>)>)
    requires Inv(s)
    ensures RunAll(exclusive, s, steps).limit == s.limit
  {
    if steps != [] {
      LimitKept(exclusive, s, steps[..|steps| - 1]);
      EveryInterleaving(exclusive, s, steps[..|steps| - 1]);
      var s1 := RunAll(exclusive, s, steps[..|steps| - 1]);
      var (t, a) := steps[|steps| - 1];
      if Happens(exclusive, s1, t, a) { ExecKeepsLimit(s1, t, a); }
    }
  }

  lemma ExecKeepsLimit<V>(s: System<V>, t: Tid, a: Action<V>)
    requires Enabled(s, t, a)
    ensures Exec(s, t, a).limit == s.limit
  {
  }

  // ----- pool entries -----

  ghost function Holders<V>(s: System<V>): set<Tid> {
    set t | t in s.pcs && Private(s.pcs[t]).Some?
  }

  ghost function PrivateEntries<V>(pcs: map<Tid, Pc<V>>, ts: set<Tid>): set<Addr>
    requires forall t :: t in ts ==> t in pcs && Private(pcs[t]).Some?
  {
    set t | t in ts :: Private(pcs[t]).value
  }

  /** Live entries number the linked, the privately held and the lost ones. */
  lemma PoolCount<V>(s: System<V>)
    requires ListOk(s) && Owned(s)
    ensures |s.pool| == |s.list| + |Holders(s)| + |Lost(s)|
  {
    var linked, held := Members(s.list), PrivateEntries(s.pcs, Holders(s));
    PoolPartition(s);
    MembersSize(s.list);
    HoldersDistinct(s);
    EntriesSize(s.pcs, Holders(s));
    assert |linked + held| == |linked| + |held|;
    assert |s.pool.Keys| == |linked + held| + |Lost(s)|;
  }

  lemma HoldersDistinct<V>(s: System<V>)
    requires Owned(s)
    ensures forall t, u :: t in Holders(s) && u in Holders(s) && Private(s.pcs[t]) == Private(s.pcs[u]) ==> t == u
  {
    forall t, u | t in Holders(s) && u in Holders(s) && Private(s.pcs[t]) == Private(s.pcs[u]) ensures t == u {
      assert Holds(s, t, Private(s.pcs[t]).value) && Holds(s, u, Private(s.pcs[t]).value);
    }
  }

  lemma PoolPartition<V>(s: System<V>)
    requires ListOk(s) && Owned(s)
    ensures s.pool.Keys == Members(s.list) + PrivateEntries(s.pcs, Holders(s)) + Lost(s)
    ensures Members(s.list) !! PrivateEntries(s.pcs, Holders(s))
    ensures Members(s.list) + PrivateEntries(s.pcs, Holders(s)) !! Lost(s)
  {
    var held := PrivateEntries(s.pcs, Holders(s));
    forall e: Addr ensures Outside(s, e) <==> e in held || e in Lost(s) {
      if e in held {
        var t :| t in Holders(s) && Private(s.pcs[t]).value == e;
        assert Holds(s, t, e);
      }
      if Outside(s, e) && e !in Lost(s) {
        var t :| t in s.pcs && Private(s.pcs[t]) == Some(e);
        assert t in Holders(s);
      }
    }
  }

  lemma {:induction false} MembersSize(list: seq<Addr>)
    requires forall i, j :: 0 <= i < j < |list| ==> list[i] != list[j]
    ensures |Members(list)| == |list|
  {
    if list != [] {
      var p, last := list[..|list| - 1], list[|list| - 1];
      MembersSize(p);
      assert forall i :: 0 <= i < |p| ==> p[i] == list[i];
      assert Members(list) == Members(p) + {last};
    }
  }

  lemma {:induction false} EntriesSize<V>(pcs: map<Tid, Pc<V>>, ts: set<Tid>)
    requires forall t :: t in ts ==> t in pcs && Private(pcs[t]).Some?
    requires forall t, u :: t in ts && u in ts && Private(pcs[t]) == Private(pcs[u]) ==> t == u
    ensures |PrivateEntries(pcs, ts)| == |ts|
  {
    if ts != {} {
      var t :| t in ts;
      EntriesSize(pcs, ts - {t});
      assert PrivateEntries(pcs, ts) == PrivateEntries(pcs, ts - {t}) + {Private(pcs[t]).value};
    }
  }

  /** Every re-initialisation that took place found the list empty. */
  ghost predicate ReinitializedEmpty<V>(exclusive: bool, s: System<V>, steps: seq<(Tid, Action<V>)>) {
    forall m | 0 <= m < |steps| && steps[m].1.Reinitialize? ::
      var s1 := RunAll(exclusive, s, steps[..m]);
      Happens(exclusive, s1, steps[m].0, steps[m].1) ==> s1.list == []
  }

  lemma {:induction false} LostExactly<V>(exclusive: bool, s: System<V>, steps: seq<(Tid, Action<V>)>)
    requires Inv(s) && Lost(s) == {}
    ensures Lost(RunAll(exclusive, s, steps)) == {} <==> ReinitializedEmpty(exclusive, s, steps)
  {
    if steps != [] {
      var p := steps[..|steps| - 1];
      LostExactly(exclusive, s, p);
      EveryInterleaving(exclusive, s, p);
      EmptyStep(exclusive, s, steps);
      var s1 := RunAll(exclusive, s, p);
      var (t, a) := steps[|steps| - 1];
      if Happens(exclusive, s1, t, a) {
        ExecKeeps(s1, t, a);
        if s1.list != [] { assert s1.list[0] in Members(s1.list); }
      }
    }
  }

  lemma EmptyStep<V>(exclusive: bool, s: System<V>, steps: seq<(Tid, Action<V>)>)
    requires steps != []
    ensures var p := steps[..|steps| - 1];
            var s1, (t, a) := RunAll(exclusive, s, p), steps[|steps| - 1];
            ReinitializedEmpty(exclusive, s, steps) <==>
              ReinitializedEmpty(exclusive, s, p) && (a.Reinitialize? && Happens(exclusive, s1, t, a) ==> s1.list == [])
  {
    var p := steps[..|steps| - 1];
    assert forall m :: 0 <= m < |p| ==> p[..m] == steps[..m] && p[m] == steps[m];
  }

  /**
   In every schedule, exclusive or not, the counter is the list length and at most the cap and
   AppIds are distinct; and live entries number the linked plus the privately held ones exactly
   when every re-initialisation found the list empty.
   */
  lemma ConservedExactly<V>(exclusive: bool, limit: nat, steps: seq<(Tid, Action<V>)>)
    requires limit <= MAX_ENTRIES
    ensures var s := RunAll(exclusive, Initial<V>(limit), steps);
            && Walkable(s.pool, s.list) && Distinct(Contents(s.pool, s.list))
            && s.count == |s.list| <= MAX_ENTRIES
            && (|s.pool| == |s.list| + |Holders(s)| <==> ReinitializedEmpty(exclusive, Initial<V>(limit), steps))
  {
    InitialInv<V>(limit);
    EveryInterleaving(exclusive, Initial<V>(limit), steps);
    LostExactly(exclusive, Initial<V>(limit), steps);
    PoolCount(RunAll(exclusive, Initial<V>(limit), steps));
  }
}

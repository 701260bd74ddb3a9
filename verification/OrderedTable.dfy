/**
 The abstract value of a policy or route table: records in list order, at most one per AppId.
 Both tables of the driver run the same code over different record bodies, so the body is a
 type parameter.
 */
module OrderedTable {
  import opened Base

  /** A versioned table record, as it travels in an IOCTL payload. */
  datatype Record<+V> = Record(version: U32, key: AppId, body: V)

  const RECORD_VERSION: U32 := 1
  const MAX_ENTRIES: nat := 4096

  ghost predicate Distinct<V>(t: seq<Record<V>>) {
    forall i, j :: 0 <= i < j < |t| ==> t[i].key != t[j].key
  }

  /** Position of the first record with the key, or the length of the table. */
  function IndexOf<V>(t: seq<Record<V>>, k: AppId): (i: nat)
    ensures i <= |t|
    ensures i < |t| ==> t[i].key == k
    ensures forall j :: 0 <= j < i ==> t[j].key != k
  {
    FirstFrom(t, k, 0)
  }

  function FirstFrom<V>(t: seq<Record<V>>, k: AppId, from: nat): (i: nat)
    requires from <= |t|
    ensures from <= i <= |t|
    ensures i < |t| ==> t[i].key == k
    ensures forall j :: from <= j < i ==> t[j].key != k
    decreases |t| - from
  {
    if from == |t| || t[from].key == k then from else FirstFrom(t, k, from + 1)
  }

  /** Position of the last record with the key, or -1. */
  function LastIndex<V>(t: seq<Record<V>>, k: AppId): (i: int)
    ensures -1 <= i < |t|
    ensures 0 <= i ==> t[i].key == k
    ensures forall j :: i < j < |t| ==> t[j].key != k
  {
    LastBelow(t, k, |t|)
  }

  function LastBelow<V>(t: seq<Record<V>>, k: AppId, end: nat): (i: int)
    requires end <= |t|
    ensures -1 <= i < end
    ensures 0 <= i ==> t[i].key == k
    ensures forall j :: i < j < end ==> t[j].key != k
  {
    if end == 0 || t[end - 1].key == k then end - 1 else LastBelow(t, k, end - 1)
  }

  predicate Contains<V>(t: seq<Record<V>>, k: AppId) {
    IndexOf(t, k) < |t|
  }

  function Lookup<V>(t: seq<Record<V>>, k: AppId): Option<Record<V>> {
    var i := IndexOf(t, k);
    if i < |t| then Some(t[i]) else None
  }

  /** Replace the record of the same key where it stands, or append. */
  function Upsert<V>(t: seq<Record<V>>, r: Record<V>): seq<Record<V>> {
    var i := IndexOf(t, r.key);
    if i < |t| then t[i := r] else t + [r]
  }

  function Delete<V>(t: seq<Record<V>>, k: AppId): seq<Record<V>> {
    var i := IndexOf(t, k);
    if i < |t| then t[..i] + t[i + 1..] else t
  }

  /** One Set call: reject, fail to allocate, update in place, fail at capacity, or append. */
  function SetResult<V>(t: seq<Record<V>>, arg: Option<Record<V>>, alloc: bool): (seq<Record<V>>, NtStatus) {
    if arg.None? || arg.value.version != RECORD_VERSION then (t, InvalidParameter)
    else if !alloc then (t, InsufficientResources)
    else if !Contains(t, arg.value.key) && MAX_ENTRIES <= |t| then (t, InsufficientResources)
    else (Upsert(t, arg.value), Success)
  }

  function RemoveResult<V>(t: seq<Record<V>>, k: AppId): (seq<Record<V>>, NtStatus) {
    if Contains(t, k) then (Delete(t, k), Success) else (t, NotFound)
  }

  /** The Sync loop from record i on; alloc(i) says whether the i-th allocation succeeds. */
  function SyncFrom<V>(t: seq<Record<V>>, rs: seq<Record<V>>, i: nat, alloc: nat -> bool): (seq<Record<V>>, NtStatus)
    requires i <= |rs|
    decreases |rs| - i
  {
    if i == |rs| then (t, Success)
    else
      var (t', status) := SetResult(t, Some(rs[i]), alloc(i));
      if status.Ok() then SyncFrom(t', rs, i + 1, alloc) else (t', status)
  }

  /** One Sync call: a rejected payload changes nothing, otherwise the table is rebuilt from empty. */
  function SyncResult<V>(t: seq<Record<V>>, arg: Option<seq<Record<V>>>, limit: nat, alloc: nat -> bool)
    : (seq<Record<V>>, NtStatus)
  {
    if arg.None? || limit < |arg.value| then (t, InvalidParameter)
    else SyncFrom([], arg.value, 0, alloc)
  }

  /** Upserting the records one after the other into the empty table. */
  function Fold<V>(rs: seq<Record<V>>): seq<Record<V>> {
    if rs == [] then [] else Upsert(Fold(rs[..|rs| - 1]), rs[|rs| - 1])
  }

  // ----- single operations -----

  /** Upsert keeps AppIds distinct and changes the answer for its own key only. */
  lemma UpsertLaws<V>(t: seq<Record<V>>, r: Record<V>)
    ensures Distinct(t) ==> Distinct(Upsert(t, r))
    ensures forall k :: Lookup(Upsert(t, r), k) == if k == r.key then Some(r) else Lookup(t, k)
    ensures |t| <= |Upsert(t, r)| == if Contains(t, r.key) then |t| else |t| + 1
    ensures forall j :: 0 <= j < |t| ==> Upsert(t, r)[j].key == t[j].key
  {
    var u := Upsert(t, r);
    forall k ensures Lookup(u, k) == if k == r.key then Some(r) else Lookup(t, k) {
      var i, j := IndexOf(t, k), IndexOf(u, k);
      if i < |t| { assert u[i].key == k; }
      if j < |t| { assert t[j].key == u[j].key; }
      assert u[IndexOf(t, r.key)] == r;
    }
  }

  /** Delete keeps AppIds distinct and removes the answer for its own key only. */
  lemma DeleteLaws<V>(t: seq<Record<V>>, key: AppId)
    requires Distinct(t)
    ensures Distinct(Delete(t, key))
    ensures forall k :: Lookup(Delete(t, key), k) == if k == key then None else Lookup(t, k)
    ensures |Delete(t, key)| == if Contains(t, key) then |t| - 1 else |t|
  {
    var d, m := Delete(t, key), IndexOf(t, key);
    if m < |t| {
      assert forall j :: 0 <= j < |d| ==> d[j] == if j < m then t[j] else t[j + 1];
      forall k ensures Lookup(d, k) == if k == key then None else Lookup(t, k) {
        var i, j := IndexOf(t, k), IndexOf(d, k);
        if i < |t| && i != m { assert d[if i < m then i else i - 1] == t[i]; }
        if j < |d| { assert d[j] == t[if j < m then j else j + 1]; }
      }
    }
  }

  /** A Set that can allocate succeeds on a full table exactly for keys already in it. */
  lemma SetAtCapacity<V>(t: seq<Record<V>>, r: Record<V>)
    requires |t| == MAX_ENTRIES && r.version == RECORD_VERSION
    ensures SetResult(t, Some(r), true).1.Ok() <==> Lookup(t, r.key).Some?
    ensures SetResult(t, Some(r), true).1.Ok() ==>
              |SetResult(t, Some(r), true).0| == MAX_ENTRIES && Lookup(SetResult(t, Some(r), true).0, r.key) == Some(r)
  {
    UpsertLaws(t, r);
  }

  /** A lookup answers with the first record of the key, and with none exactly when there is none. */
  lemma LookupExactly<V>(t: seq<Record<V>>, k: AppId)
    ensures Lookup(t, k) == None <==> forall i :: 0 <= i < |t| ==> t[i].key != k
    ensures forall r :: Lookup(t, k) == Some(r) <==>
              exists i :: 0 <= i < |t| && t[i] == r && r.key == k && forall j :: 0 <= j < i ==> t[j].key != k
  {
    var i := IndexOf(t, k);
    if i < |t| { assert t[i].key == k; }
  }

  /** t' is t with r stored: r answers its key, every other answer and every position is as before. */
  ghost predicate Stored<V>(t: seq<Record<V>>, r: Record<V>, t': seq<Record<V>>) {
    && (forall k :: Lookup(t', k) == if k == r.key then Some(r) else Lookup(t, k))
    && |t'| == (if Lookup(t, r.key).Some? then |t| else |t| + 1)
    && forall j :: 0 <= j < |t| ==> t'[j].key == t[j].key && (t[j].key != r.key ==> t'[j] == t[j])
  }

  /** t' is t without the record of key k: no answer but its own changes, and the others keep their order. */
  ghost predicate Removed<V>(t: seq<Record<V>>, k: AppId, t': seq<Record<V>>) {
    && (forall l :: Lookup(t', l) == if l == k then None else Lookup(t, l))
    && exists i :: 0 <= i < |t| && t[i].key == k && t' == t[..i] + t[i + 1..]
  }

  /** One Set, case by case: its status, and what it leaves. */
  lemma SetExactly<V>(t: seq<Record<V>>, arg: Option<Record<V>>, alloc: bool)
    requires Distinct(t)
    ensures var (t', status) := SetResult(t, arg, alloc);
            && (status == InvalidParameter <==> arg.None? || arg.value.version != 1)
            && (status == Success <==> arg.Some? && arg.value.version == 1 && alloc
                                       && (Lookup(t, arg.value.key).Some? || |t| < 4096))
            && status in {Success, InvalidParameter, InsufficientResources}
            && (if status == Success then Stored(t, arg.value, t') else t' == t)
  {
    if arg.Some? { UpsertLaws(t, arg.value); }
  }

  /** One removal, likewise. */
  lemma RemoveExactly<V>(t: seq<Record<V>>, k: AppId)
    requires Distinct(t)
    ensures var (t', status) := RemoveResult(t, k);
            if Lookup(t, k).Some? then status == Success && Removed(t, k, t') else status == NotFound && t' == t
  {
    DeleteLaws(t, k);
    if Contains(t, k) {
      var i := IndexOf(t, k);
      assert t[i].key == k && Delete(t, k) == t[..i] + t[i + 1..];
    }
  }

  /** A Sync without a payload, or with more records than the limit, changes nothing. */
  lemma SyncRefused<V>(t: seq<Record<V>>, arg: Option<seq<Record<V>>>, limit: nat, alloc: nat -> bool)
    requires arg.None? || limit < |arg.value|
    ensures SyncResult(t, arg, limit, alloc) == (t, InvalidParameter)
  {
  }

  // ----- what Sync computes -----

  /** Every record of t is the last one the payload holds for its AppId. */
  ghost predicate LastRecords<V>(t: seq<Record<V>>, rs: seq<Record<V>>) {
    forall i :: 0 <= i < |t| ==> 0 <= LastIndex(rs, t[i].key) && t[i] == rs[LastIndex(rs, t[i].key)]
  }

  /** Every AppId of the payload is in t. */
  ghost predicate Covers<V>(t: seq<Record<V>>, rs: seq<Record<V>>) {
    forall j :: 0 <= j < |rs| ==> Contains(t, rs[j].key)
  }

  /** The AppIds of t stand in the order in which they first occur in the payload. */
  ghost predicate FirstOrder<V>(t: seq<Record<V>>, rs: seq<Record<V>>) {
    forall i, j :: 0 <= i < j < |t| ==> IndexOf(rs, t[i].key) < IndexOf(rs, t[j].key)
  }

  /** An independent description of the table a payload stands for. */
  ghost predicate IsSyncImage<V>(t: seq<Record<V>>, rs: seq<Record<V>>) {
    LastRecords(t, rs) && Covers(t, rs) && FirstOrder(t, rs)
  }

  /** Appending one record moves no first occurrence and only its own last occurrence. */
  lemma AppendOccurrences<V>(p: seq<Record<V>>, r: Record<V>)
    ensures forall k :: Contains(p, k) ==> IndexOf(p + [r], k) == IndexOf(p, k)
    ensures !Contains(p, r.key) ==> IndexOf(p + [r], r.key) == |p|
    ensures forall k :: LastIndex(p + [r], k) == if k == r.key then |p| else LastIndex(p, k)
  {
    var rs := p + [r];
    assert rs[..|p|] == p && rs[|p|] == r;
    assert forall j :: 0 <= j < |p| ==> rs[j] == p[j];
  }

  lemma {:induction false} FoldIsSyncImage<V>(rs: seq<Record<V>>)
    ensures IsSyncImage(Fold(rs), rs)
    ensures Distinct(Fold(rs)) && |Fold(rs)| <= |rs|
    decreases |rs|
  {
    if rs != [] {
      var p, r := rs[..|rs| - 1], rs[|rs| - 1];
      assert rs == p + [r];
      FoldIsSyncImage(p);
      UpsertLaws(Fold(p), r);
      UpsertLastRecords(Fold(p), p, r);
      UpsertCovers(Fold(p), p, r);
      UpsertFirstOrder(Fold(p), p, r);
    }
  }

  lemma UpsertLastRecords<V>(t: seq<Record<V>>, p: seq<Record<V>>, r: Record<V>)
    requires LastRecords(t, p) && Distinct(t)
    ensures LastRecords(Upsert(t, r), p + [r])
  {
    AppendOccurrences(p, r);
    var u := Upsert(t, r);
    assert forall i :: 0 <= i < |u| && u[i] != r ==> i < |t| && u[i] == t[i] && t[i].key != r.key;
  }

  lemma UpsertCovers<V>(t: seq<Record<V>>, p: seq<Record<V>>, r: Record<V>)
    requires Covers(t, p)
    ensures Covers(Upsert(t, r), p + [r])
  {
    UpsertLaws(t, r);
    var u, rs := Upsert(t, r), p + [r];
    forall j | 0 <= j < |rs| ensures Contains(u, rs[j].key) {
      if j < |p| { assert Contains(t, p[j].key); }
      assert Lookup(u, rs[j].key).Some?;
    }
  }

  lemma UpsertFirstOrder<V>(t: seq<Record<V>>, p: seq<Record<V>>, r: Record<V>)
    requires IsSyncImage(t, p)
    ensures FirstOrder(Upsert(t, r), p + [r])
  {
    AppendOccurrences(p, r);
    UpsertLaws(t, r);
    forall i | 0 <= i < |t| ensures Contains(p, t[i].key) {
      assert p[LastIndex(p, t[i].key)].key == t[i].key;
    }
    if Contains(p, r.key) {
      assert Contains(t, p[IndexOf(p, r.key)].key);
    }
  }

  /** Two tables that agree up to i place the i-th record of the first at i or later in the second. */
  lemma SyncImageSibling<V>(t: seq<Record<V>>, u: seq<Record<V>>, rs: seq<Record<V>>, i: nat) returns (m: nat)
    requires IsSyncImage(t, rs) && IsSyncImage(u, rs)
    requires i < |t| && i <= |u| && t[..i] == u[..i]
    ensures i <= m < |u| && u[m] == t[i]
  {
    assert Contains(u, rs[LastIndex(rs, t[i].key)].key);
    m := IndexOf(u, t[i].key);
    assert forall q :: 0 <= q < i ==> u[..i][q].key == t[..i][q].key != t[i].key;
  }

  /** Tables that agree before position i agree at i. */
  lemma SyncImageNext<V>(t: seq<Record<V>>, u: seq<Record<V>>, rs: seq<Record<V>>, i: nat)
    requires IsSyncImage(t, rs) && IsSyncImage(u, rs)
    requires i < |t| && i <= |u| && t[..i] == u[..i]
    ensures i < |u| && t[i] == u[i]
  {
    var m := SyncImageSibling(t, u, rs, i);
    var q := SyncImageSibling(u, t, rs, i);
    FirstOrderStrict(u, rs, i, m);
    FirstOrderStrict(t, rs, i, q);
  }

  lemma {:induction false} SyncImagePrefix<V>(t: seq<Record<V>>, u: seq<Record<V>>, rs: seq<Record<V>>, i: nat)
    requires IsSyncImage(t, rs) && IsSyncImage(u, rs) && i <= |t|
    ensures i <= |u| && t[..i] == u[..i]
  {
    if 0 < i {
      SyncImagePrefix(t, u, rs, i - 1);
      SyncImageNext(t, u, rs, i - 1);
      PrefixExtends(t, u, i - 1);
    }
  }

  lemma PrefixExtends<V>(t: seq<Record<V>>, u: seq<Record<V>>, i: nat)
    requires i < |t| && i < |u| && t[..i] == u[..i] && t[i] == u[i]
    ensures t[..i + 1] == u[..i + 1]
  {
    assert t[..i + 1] == t[..i] + [t[i]] && u[..i + 1] == u[..i] + [u[i]];
  }

  /** The description pins the table down completely. */
  lemma SyncImageUnique<V>(t: seq<Record<V>>, u: seq<Record<V>>, rs: seq<Record<V>>)
    requires IsSyncImage(t, rs) && IsSyncImage(u, rs)
    ensures t == u
  {
    SyncImagePrefix(t, u, rs, |t|);
    SyncImagePrefix(u, t, rs, |u|);
    assert t == t[..|t|] && u == u[..|u|];
  }

  /** The table Sync builds is exactly the described one, whatever the payload. */
  lemma FoldCharacterised<V>(t: seq<Record<V>>, rs: seq<Record<V>>)
    ensures t == Fold(rs) <==> IsSyncImage(t, rs)
  {
    FoldIsSyncImage(rs);
    if IsSyncImage(t, rs) { SyncImageUnique(t, Fold(rs), rs); }
  }

  /** A lookup after Sync answers with the last payload record for the key. */
  lemma FoldLookup<V>(rs: seq<Record<V>>, k: AppId)
    ensures Lookup(Fold(rs), k) == if 0 <= LastIndex(rs, k) then Some(rs[LastIndex(rs, k)]) else None
  {
    FoldIsSyncImage(rs);
    if 0 <= LastIndex(rs, k) { assert Contains(Fold(rs), rs[LastIndex(rs, k)].key); }
  }

  /** A payload without repeated AppIds is stored as it is; hence Sync is idempotent. */
  lemma FoldDistinct<V>(rs: seq<Record<V>>)
    requires Distinct(rs)
    ensures Fold(rs) == rs
  {
    assert forall i :: 0 <= i < |rs| ==> IndexOf(rs, rs[i].key) == i == LastIndex(rs, rs[i].key);
    FoldCharacterised(rs, rs);
  }

  lemma FoldIdempotent<V>(rs: seq<Record<V>>)
    ensures Fold(Fold(rs)) == Fold(rs)
  {
    FoldIsSyncImage(rs);
    FoldDistinct(Fold(rs));
  }

  /** The number of payload records Sync processes before it stops. */
  function Accepted<V>(rs: seq<Record<V>>, i: nat, alloc: nat -> bool): (n: nat)
    requires i <= |rs|
    ensures i <= n <= |rs|
    ensures forall j :: i <= j < n ==> rs[j].version == RECORD_VERSION && alloc(j)
    ensures n < |rs| ==> rs[n].version != RECORD_VERSION || !alloc(n)
    decreases |rs| - i
  {
    if i < |rs| && rs[i].version == RECORD_VERSION && alloc(i) then Accepted(rs, i + 1, alloc) else i
  }

  /**
   What a Sync within its record limit does, whatever the table held before: it stops at the
   first record with a foreign version or a failed allocation, never because of capacity, and
   leaves exactly the fold of the records before it.
   */
  lemma SyncOutcome<V>(t: seq<Record<V>>, rs: seq<Record<V>>, limit: nat, alloc: nat -> bool)
    requires |rs| <= limit <= MAX_ENTRIES
    ensures var n := Accepted(rs, 0, alloc);
            SyncResult(t, Some(rs), limit, alloc) ==
            (Fold(rs[..n]),
             if n == |rs| then Success
             else if rs[n].version != RECORD_VERSION then InvalidParameter
             else InsufficientResources)
  {
    SyncFromOutcome(rs, 0, alloc);
    assert rs[..0] == [];
  }

  lemma FoldStep<V>(rs: seq<Record<V>>, i: nat)
    requires i < |rs|
    ensures Fold(rs[..i + 1]) == Upsert(Fold(rs[..i]), rs[i])
  {
    assert rs[..i + 1][..i] == rs[..i];
  }

  lemma {:induction false} SyncFromOutcome<V>(rs: seq<Record<V>>, i: nat, alloc: nat -> bool)
    requires i <= |rs| <= MAX_ENTRIES
    ensures var n := Accepted(rs, i, alloc);
            SyncFrom(Fold(rs[..i]), rs, i, alloc) ==
            (Fold(rs[..n]),
             if n == |rs| then Success
             else if rs[n].version != RECORD_VERSION then InvalidParameter
             else InsufficientResources)
    decreases |rs| - i
  {
    if i < |rs| {
      FoldIsSyncImage(rs[..i]);
      FoldStep(rs, i);
      if rs[i].version == RECORD_VERSION && alloc(i) {
        SyncFromOutcome(rs, i + 1, alloc);
      }
    }
  }

  /** What every table keeps: distinct AppIds and no more than the cap. */
  ghost predicate Sound<V>(t: seq<Record<V>>) {
    Distinct(t) && |t| <= MAX_ENTRIES
  }

  lemma SetKeepsSound<V>(t: seq<Record<V>>, arg: Option<Record<V>>, alloc: bool)
    requires Sound(t)
    ensures Sound(SetResult(t, arg, alloc).0)
  {
    if arg.Some? { UpsertLaws(t, arg.value); }
  }

  lemma RemoveKeepsSound<V>(t: seq<Record<V>>, k: AppId)
    requires Sound(t)
    ensures Sound(RemoveResult(t, k).0)
  {
    DeleteLaws(t, k);
  }

  lemma SyncKeepsSound<V>(t: seq<Record<V>>, arg: Option<seq<Record<V>>>, limit: nat, alloc: nat -> bool)
    requires Sound(t)
    ensures Sound(SyncResult(t, arg, limit, alloc).0)
  {
    if arg.Some? { SyncFromKeepsSound([], arg.value, 0, alloc); }
  }

  lemma {:induction false} SyncFromKeepsSound<V>(t: seq<Record<V>>, rs: seq<Record<V>>, i: nat, alloc: nat -> bool)
    requires Sound(t) && i <= |rs|
    ensures Sound(SyncFrom(t, rs, i, alloc).0)
    decreases |rs| - i
  {
    if i < |rs| {
      SetKeepsSound(t, Some(rs[i]), alloc(i));
      SyncFromKeepsSound(SetResult(t, Some(rs[i]), alloc(i)).0, rs, i + 1, alloc);
    }
  }

  // ----- reordering a payload -----

  /** The payload records of one key, in payload order. */
  function Restrict<V>(rs: seq<Record<V>>, k: AppId): seq<Record<V>> {
    if rs == [] then []
    else Restrict(rs[..|rs| - 1], k) + (if rs[|rs| - 1].key == k then [rs[|rs| - 1]] else [])
  }

  /** A reordering that keeps the relative order of records with equal AppIds. */
  ghost predicate KeyStableReordering<V>(rs: seq<Record<V>>, rs': seq<Record<V>>) {
    forall k :: Restrict(rs, k) == Restrict(rs', k)
  }

  lemma {:induction false} RestrictLast<V>(rs: seq<Record<V>>, k: AppId)
    ensures Restrict(rs, k) == [] <==> LastIndex(rs, k) < 0
    ensures Restrict(rs, k) != [] ==> Restrict(rs, k)[|Restrict(rs, k)| - 1] == rs[LastIndex(rs, k)]
    decreases |rs|
  {
    if rs != [] && rs[|rs| - 1].key != k {
      RestrictLast(rs[..|rs| - 1], k);
    }
  }

  lemma SameLast<V>(rs: seq<Record<V>>, rs': seq<Record<V>>, k: AppId)
    requires KeyStableReordering(rs, rs')
    ensures LastIndex(rs, k) < 0 <==> LastIndex(rs', k) < 0
    ensures 0 <= LastIndex(rs, k) ==> rs[LastIndex(rs, k)] == rs'[LastIndex(rs', k)]
    ensures Contains(rs, k) <==> Contains(rs', k)
  {
    RestrictLast(rs, k);
    RestrictLast(rs', k);
    ContainsByLast(rs, k);
    ContainsByLast(rs', k);
  }

  lemma ContainsByLast<V>(rs: seq<Record<V>>, k: AppId)
    ensures Contains(rs, k) <==> 0 <= LastIndex(rs, k)
  {
    if 0 <= LastIndex(rs, k) { assert rs[LastIndex(rs, k)].key == k; }
  }

  /** Keyed lookups cannot tell a payload from a key-stable reordering of it. */
  lemma ReorderedLookup<V>(rs: seq<Record<V>>, rs': seq<Record<V>>, k: AppId)
    requires KeyStableReordering(rs, rs')
    ensures Lookup(Fold(rs), k) == Lookup(Fold(rs'), k)
  {
    FoldLookup(rs, k);
    FoldLookup(rs', k);
    SameLast(rs, rs', k);
  }

  /** The stored records are the same ones, up to list order. */
  lemma ReorderedContents<V>(rs: seq<Record<V>>, rs': seq<Record<V>>)
    requires KeyStableReordering(rs, rs')
    ensures multiset(Fold(rs)) == multiset(Fold(rs'))
  {
    FoldIsSyncImage(rs);
    FoldIsSyncImage(rs');
    forall k ensures Lookup(Fold(rs), k) == Lookup(Fold(rs'), k) { ReorderedLookup(rs, rs', k); }
    SameByLookup(Fold(rs), Fold(rs'));
  }

  /** Tables with distinct AppIds that answer every lookup alike store the same records. */
  lemma SameByLookup<V>(t: seq<Record<V>>, u: seq<Record<V>>)
    requires Distinct(t) && Distinct(u) && forall k :: Lookup(t, k) == Lookup(u, k)
    ensures multiset(t) == multiset(u)
  {
    forall x: Record<V> ensures multiset(t)[x] == multiset(u)[x] {
      CountByLookup(t, x);
      CountByLookup(u, x);
    }
  }

  lemma {:induction false} CountByLookup<V>(t: seq<Record<V>>, x: Record<V>)
    requires Distinct(t)
    ensures multiset(t)[x] == if Lookup(t, x.key) == Some(x) then 1 else 0
  {
    var i := IndexOf(t, x.key);
    if i < |t| {
      assert t == t[..i] + [t[i]] + t[i + 1..];
      assert x !in t[..i];
      var rest := t[i + 1..];
      assert forall j :: 0 <= j < |rest| ==> rest[j].key != x.key;
    } else {
      assert x !in t;
    }
  }

  /** Every pair of AppIds first occurs in the same order in both payloads. */
  ghost predicate SameFirstOrder<V>(rs: seq<Record<V>>, rs': seq<Record<V>>) {
    forall a, b :: Contains(rs, a) && Contains(rs, b) ==>
      (IndexOf(rs, a) < IndexOf(rs, b) <==> IndexOf(rs', a) < IndexOf(rs', b))
  }

  lemma ReorderedLastRecords<V>(t: seq<Record<V>>, rs: seq<Record<V>>, rs': seq<Record<V>>)
    requires KeyStableReordering(rs, rs') && LastRecords(t, rs)
    ensures LastRecords(t, rs')
    ensures forall i :: 0 <= i < |t| ==> Contains(rs, t[i].key)
  {
    forall i | 0 <= i < |t|
      ensures 0 <= LastIndex(rs', t[i].key) && t[i] == rs'[LastIndex(rs', t[i].key)] && Contains(rs, t[i].key)
    {
      SameLast(rs, rs', t[i].key);
      ContainsByLast(rs, t[i].key);
    }
  }

  lemma ReorderedCovers<V>(t: seq<Record<V>>, rs: seq<Record<V>>, rs': seq<Record<V>>)
    requires KeyStableReordering(rs, rs') && Covers(t, rs)
    ensures Covers(t, rs')
  {
    forall j | 0 <= j < |rs'| ensures Contains(t, rs'[j].key) {
      SameLast(rs, rs', rs'[j].key);
      assert Contains(t, rs[IndexOf(rs, rs'[j].key)].key);
    }
  }

  lemma ReorderedSameTable<V>(rs: seq<Record<V>>, rs': seq<Record<V>>)
    requires KeyStableReordering(rs, rs') && SameFirstOrder(rs, rs')
    ensures Fold(rs) == Fold(rs')
  {
    var t := Fold(rs);
    FoldIsSyncImage(rs);
    ReorderedLastRecords(t, rs, rs');
    ReorderedCovers(t, rs, rs');
    FoldCharacterised(t, rs');
  }

  /** First occurrences in the payload are ordered as positions in the table. */
  lemma FirstOrderByPosition<V>(t: seq<Record<V>>, rs: seq<Record<V>>, a: AppId, b: AppId)
    requires FirstOrder(t, rs) && Contains(t, a) && Contains(t, b)
    ensures IndexOf(rs, a) < IndexOf(rs, b) <==> IndexOf(t, a) < IndexOf(t, b)
  {
    var i, j := IndexOf(t, a), IndexOf(t, b);
    assert t[i].key == a && t[j].key == b;
    if i < j {
      FirstOrderStrict(t, rs, i, j);
    } else if j < i {
      FirstOrderStrict(t, rs, j, i);
    }
  }

  lemma FirstOrderStrict<V>(t: seq<Record<V>>, rs: seq<Record<V>>, i: nat, j: nat)
    requires FirstOrder(t, rs) && i < |t| && j < |t|
    ensures i < j ==> IndexOf(rs, t[i].key) < IndexOf(rs, t[j].key)
  {
  }

  lemma FoldCovers<V>(rs: seq<Record<V>>, k: AppId)
    requires Contains(rs, k)
    ensures Contains(Fold(rs), k) && FirstOrder(Fold(rs), rs)
  {
    FoldIsSyncImage(rs);
    assert rs[IndexOf(rs, k)].key == k;
  }

  /**
   List order, which first-match lookups depend on, survives a key-stable reordering exactly
   when the order of first occurrences does.
   */
  lemma ReorderedOrder<V>(rs: seq<Record<V>>, rs': seq<Record<V>>)
    requires KeyStableReordering(rs, rs')
    ensures Fold(rs) == Fold(rs') <==> SameFirstOrder(rs, rs')
  {
    if SameFirstOrder(rs, rs') { ReorderedSameTable(rs, rs'); }
    if Fold(rs) == Fold(rs') {
      forall a, b | Contains(rs, a) && Contains(rs, b)
        ensures IndexOf(rs, a) < IndexOf(rs, b) <==> IndexOf(rs', a) < IndexOf(rs', b)
      {
        SameLast(rs, rs', a);
        SameLast(rs, rs', b);
        FoldCovers(rs, a);
        FoldCovers(rs, b);
        FoldCovers(rs', a);
        FirstOrderByPosition(Fold(rs), rs, a, b);
        FirstOrderByPosition(Fold(rs), rs', a, b);
      }
    }
  }
}

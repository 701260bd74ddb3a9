/** Policy records, the connections they are matched against, and first-match lookup. */
module Policies {
  import opened Base
  import opened OrderedTable
  import opened LinkedTable

  const MATCH_NONE: U32 := 0
  const MATCH_PROCESS_PATH: U32 := 1
  const MAX_SYNC_POLICIES: nat := 256

  /** The policy fields lookup and classification read, and the path they do not. */
  datatype PolicyBody = PolicyBody(action: U32, matchKind: U32, exePath: string, luid: U64)

  type Policy = Record<PolicyBody>

  datatype Layer = AuthConnectV4 | AuthConnectV6 | OtherLayer

  /** The ALE_APP_ID value of a classification. */
  datatype AppIdField = NotABlob | NullBlob | Blob(size: U32)

  datatype Connection = Connection(layer: Layer, appId: AppIdField)

  function BlobSize(c: Connection): Option<U32> {
    if c.layer.OtherLayer? then None
    else match c.appId case Blob(n) => Some(n) case _ => None
  }

  predicate Matches(p: Policy, c: Connection) {
    if p.body.matchKind == MATCH_PROCESS_PATH && BlobSize(c).Some? then 0 < BlobSize(c).value
    else p.body.matchKind == MATCH_NONE
  }

  /** Position of the first matching policy at or after `from`, or the length of the table. */
  function MatchFrom(t: seq<Policy>, c: Connection, from: nat): (i: nat)
    requires from <= |t|
    ensures from <= i <= |t|
    ensures i < |t| ==> Matches(t[i], c)
    ensures forall j :: from <= j < i ==> !Matches(t[j], c)
    decreases |t| - from
  {
    if from == |t| || Matches(t[from], c) then from else MatchFrom(t, c, from + 1)
  }

  function MatchIndex(t: seq<Policy>, c: Connection): (i: nat)
    ensures i <= |t|
    ensures i < |t| ==> Matches(t[i], c)
    ensures forall j :: 0 <= j < i ==> !Matches(t[j], c)
  {
    MatchFrom(t, c, 0)
  }

  function FirstMatch(t: seq<Policy>, c: Connection): Option<Policy> {
    var i := MatchIndex(t, c);
    if i < |t| then Some(t[i]) else None
  }

  /** The lookup as the driver walks it, error path included. */
  method LookupPolicy(table: Table<PolicyBody>, conn: Option<Connection>)
    returns (status: NtStatus, r: Option<Policy>)
    requires table.Valid()
    ensures conn.None? ==> status == InvalidParameter && r == None
    ensures conn.Some? ==> status == Success && r == FirstMatch(table.contents, conn.value)
  {
    r := None;
    if conn.None? {
      return InvalidParameter, None;
    }
    var blob: Option<U32> := None;
    if conn.value.layer == AuthConnectV4 {
      if conn.value.appId.Blob? { blob := Some(conn.value.appId.size); }
    } else if conn.value.layer == AuthConnectV6 {
      if conn.value.appId.Blob? { blob := Some(conn.value.appId.size); }
    }
    var entry := table.head.flink;
    ghost var k := 0;
    while entry != table.head
      invariant k <= |table.nodes| && r == None
      invariant entry == if k == |table.nodes| then table.head else table.nodes[k]
      invariant forall j :: 0 <= j < k ==> !Matches(table.contents[j], conn.value)
      decreases |table.nodes| - k
    {
      assert table.nodes[k] in table.pool;
      if entry.record.body.matchKind == MATCH_PROCESS_PATH && blob.Some? {
        if 0 < blob.value {
          r := Some(entry.record);
          break;
        }
      } else if entry.record.body.matchKind == MATCH_NONE {
        r := Some(entry.record);
        break;
      }
      entry := entry.flink;
      k := k + 1;
    }
    status := Success;
  }

  // ----- which connections a policy applies to -----

  /**
   By its match kind and the connection's own fields: kind None applies to all connections, kind
   ProcessPath to those of the two connect layers with a non-empty ALE_APP_ID blob, others to none.
   */
  predicate AppliesTo(kind: U32, c: Connection) {
    || kind == 0
    || (kind == 1 && (c.layer == AuthConnectV4 || c.layer == AuthConnectV6) && c.appId.Blob? && 1 <= c.appId.size)
  }

  lemma MatchesExactly(p: Policy, c: Connection)
    ensures Matches(p, c) <==> AppliesTo(p.body.matchKind, c)
  {
  }

  /** A policy on its own decides exactly the connections it applies to. */
  lemma AloneDecides(p: Policy, c: Connection)
    ensures FirstMatch([p], c) == if AppliesTo(p.body.matchKind, c) then Some(p) else None
  {
    MatchesExactly(p, c);
    var i := MatchIndex([p], c);
    if Matches(p, c) { assert Matches([p][0], c); }
  }

  /** The deciding policy is the first in list order that applies, and there is none when none applies. */
  lemma FirstMatchExactly(t: seq<Policy>, c: Connection)
    ensures FirstMatch(t, c) == None <==> forall i :: 0 <= i < |t| ==> !AppliesTo(t[i].body.matchKind, c)
    ensures forall p :: FirstMatch(t, c) == Some(p) <==>
              exists i :: 0 <= i < |t| && t[i] == p && AppliesTo(p.body.matchKind, c)
                          && forall j :: 0 <= j < i ==> !AppliesTo(t[j].body.matchKind, c)
  {
    forall i | 0 <= i < |t| ensures Matches(t[i], c) <==> AppliesTo(t[i].body.matchKind, c) { MatchesExactly(t[i], c); }
    var m := MatchIndex(t, c);
    if m < |t| { assert AppliesTo(t[m].body.matchKind, c); }
  }

  /** IPv4 and IPv6 connections with the same ALE_APP_ID value are decided by the same policy. */
  lemma LayersAgree(t: seq<Policy>, a: AppIdField)
    ensures MatchIndex(t, Connection(AuthConnectV6, a)) == MatchIndex(t, Connection(AuthConnectV4, a))
  {
    var c4, c6 := Connection(AuthConnectV4, a), Connection(AuthConnectV6, a);
    forall i | 0 <= i < |t| ensures Matches(t[i], c4) <==> Matches(t[i], c6) {
      MatchesExactly(t[i], c4);
      MatchesExactly(t[i], c6);
    }
  }

  // ----- precedence -----

  /** A policy of a new AppId only decides connections nothing matched before. */
  lemma AppendStable(t: seq<Policy>, p: Policy, c: Connection)
    requires !Contains(t, p.key)
    ensures FirstMatch(Upsert(t, p), c) ==
            if FirstMatch(t, c).Some? then FirstMatch(t, c) else if Matches(p, c) then Some(p) else None
  {
    var u := t + [p];
    assert forall j :: 0 <= j < |t| ==> u[j] == t[j];
    assert u[|t|] == p;
  }

  /**
   Updating a policy in place keeps its precedence: it decides a connection exactly when it
   matches and no policy before its old position does, and otherwise the deciding policy is the
   one that would decide if the updated one were not there.
   */
  lemma UpdateKeepsPrecedence(t: seq<Policy>, p: Policy, c: Connection)
    requires Distinct(t) && Contains(t, p.key)
    ensures var i := IndexOf(t, p.key);
            FirstMatch(Upsert(t, p), c) ==
            if Matches(p, c) && MatchIndex(t[..i], c) == i then Some(p) else FirstMatch(Delete(t, p.key), c)
  {
    var i := IndexOf(t, p.key);
    var u, d, before := Upsert(t, p), Delete(t, p.key), t[..i];
    assert forall j :: 0 <= j < i ==> before[j] == u[j] == d[j] == t[j];
    assert forall j :: i <= j < |d| ==> d[j] == u[j + 1];
    assert u[i] == p;
    var m, n := MatchIndex(u, c), MatchIndex(d, c);
    if n < |d| { assert d[n] == u[if n < i then n else n + 1]; }
    if m < |u| && m != i { assert u[m] == d[if m < i then m else m - 1]; }
  }

  /** Removing any policy but the deciding one changes no decision. */
  lemma RemoveStable(t: seq<Policy>, k: AppId, c: Connection)
    requires Distinct(t)
    requires FirstMatch(t, c).None? || FirstMatch(t, c).value.key != k
    ensures FirstMatch(Delete(t, k), c) == FirstMatch(t, c)
  {
    var i, d := IndexOf(t, k), Delete(t, k);
    if i < |t| {
      assert forall j :: 0 <= j < |d| ==> d[j] == if j < i then t[j] else t[j + 1];
      var m, n := MatchIndex(t, c), MatchIndex(d, c);
      if m < |t| { assert t[m] == d[if m < i then m else m - 1]; }
      if n < |d| { assert d[n] == t[if n < i then n else n + 1]; }
    }
  }

  /** Which policy decides depends on the match kinds alone, in particular never on ExePath. */
  lemma PathNeverCompared(t: seq<Policy>, u: seq<Policy>, c: Connection)
    requires |t| == |u| && forall i :: 0 <= i < |t| ==> t[i].body.matchKind == u[i].body.matchKind
    ensures MatchIndex(t, c) == MatchIndex(u, c)
    ensures MatchIndex(t, c) < |t| ==> t[MatchIndex(t, c)].body.matchKind <= MATCH_PROCESS_PATH
  {
    assert forall i :: 0 <= i < |t| ==> (Matches(t[i], c) <==> Matches(u[i], c));
  }

  // ----- lookups while a Sync is under way -----

  /** A record whose Set leaves the match of t at its position and with its record. */
  predicate Harmless(t: seq<Policy>, r: Policy, c: Connection)
    requires MatchIndex(t, c) < |t|
  {
    var m, k := MatchIndex(t, c), IndexOf(t, r.key);
    m < k || (k < m && !Matches(r, c)) || (k == m && r == t[m])
  }

  /** One Set keeps the match exactly when its record is harmless. */
  lemma HarmlessExactly(t: seq<Policy>, r: Policy, c: Connection)
    requires Distinct(t) && MatchIndex(t, c) < |t|
    ensures FirstMatch(Upsert(t, r), c) == FirstMatch(t, c) <==> Harmless(t, r, c)
    ensures Harmless(t, r, c) ==> MatchIndex(Upsert(t, r), c) == MatchIndex(t, c)
  {
    var u, m, k := Upsert(t, r), MatchIndex(t, c), IndexOf(t, r.key);
    UpsertLaws(t, r);
    assert forall j :: 0 <= j < |t| && j != k ==> u[j] == t[j];
    assert u[k] == r;
  }

  /** u is t grown around its match: same positions for t's AppIds, same first match at the same place. */
  ghost predicate KeepsMatch(t: seq<Policy>, u: seq<Policy>, c: Connection) {
    var m := MatchIndex(t, c);
    && m < |t| <= |u| && MatchIndex(u, c) == m && u[m] == t[m]
    && forall j :: 0 <= j < |t| ==> u[j].key == t[j].key
  }

  /** A table grown around the match of t finds the same records harmless. */
  lemma HarmlessStays(t: seq<Policy>, u: seq<Policy>, r: Policy, c: Connection)
    requires KeepsMatch(t, u, c)
    ensures Harmless(u, r, c) <==> Harmless(t, r, c)
  {
    var k, l := IndexOf(t, r.key), IndexOf(u, r.key);
    if k < |t| { assert u[k].key == r.key; }
    if l < |t| { assert t[l].key == r.key; }
  }

  lemma KeptStep(t: seq<Policy>, u: seq<Policy>, r: Policy, c: Connection)
    requires KeepsMatch(t, u, c) && Distinct(u)
    ensures Harmless(t, r, c) ==> KeepsMatch(t, Upsert(u, r), c)
    ensures !Harmless(t, r, c) ==> FirstMatch(Upsert(u, r), c) != FirstMatch(t, c)
  {
    HarmlessStays(t, u, r, c);
    HarmlessExactly(u, r, c);
    if Harmless(t, r, c) { GrowsAround(t, u, r, c); }
  }

  lemma GrowsAround(t: seq<Policy>, u: seq<Policy>, r: Policy, c: Connection)
    requires KeepsMatch(t, u, c) && MatchIndex(Upsert(u, r), c) == MatchIndex(u, c)
    requires FirstMatch(Upsert(u, r), c) == FirstMatch(u, c)
    ensures KeepsMatch(t, Upsert(u, r), c)
  {
    UpsertLaws(u, r);
  }

  lemma PrefixStep(t: seq<Policy>, ps: seq<Policy>, i: nat, c: Connection)
    requires i < |ps| && KeepsMatch(t, Fold(ps[..i]), c)
    ensures Harmless(t, ps[i], c) ==> KeepsMatch(t, Fold(ps[..i + 1]), c)
    ensures !Harmless(t, ps[i], c) ==> FirstMatch(Fold(ps[..i + 1]), c) != FirstMatch(t, c)
  {
    FoldStep(ps, i);
    FoldIsSyncImage(ps[..i]);
    KeptStep(t, Fold(ps[..i]), ps[i], c);
  }

  /** As long as every record is harmless, the table grows around its match. */
  lemma {:induction false} MatchKept(t: seq<Policy>, ps: seq<Policy>, i: nat, j: nat, c: Connection)
    requires i <= j <= |ps| && KeepsMatch(t, Fold(ps[..i]), c)
    requires forall q :: i <= q < j ==> Harmless(t, ps[q], c)
    ensures KeepsMatch(t, Fold(ps[..j]), c)
    decreases j - i
  {
    if i < j {
      PrefixStep(t, ps, i, c);
      MatchKept(t, ps, i + 1, j, c);
    }
  }

  /**
   A match found in a prefix of the payload is the match in every longer prefix up to j exactly
   when every record between them is harmless to the table in which it was found.
   */
  lemma MatchFinalExactly(ps: seq<Policy>, i: nat, j: nat, c: Connection)
    requires i <= j <= |ps| && MatchIndex(Fold(ps[..i]), c) < |Fold(ps[..i])|
    ensures (forall q :: i <= q <= j ==> FirstMatch(Fold(ps[..q]), c) == FirstMatch(Fold(ps[..i]), c))
            <==> (forall q :: i <= q < j ==> Harmless(Fold(ps[..i]), ps[q], c))
  {
    var t := Fold(ps[..i]);
    if forall q :: i <= q < j ==> Harmless(t, ps[q], c) {
      forall q | i <= q <= j ensures FirstMatch(Fold(ps[..q]), c) == FirstMatch(t, c) { MatchKept(t, ps, i, q, c); }
    } else {
      var q :| i <= q < j && !Harmless(t, ps[q], c);
      var x := FirstHarmful(ps, t, i, q, c);
      MatchKept(t, ps, i, x, c);
      PrefixStep(t, ps, x, c);
    }
  }

  lemma {:induction false} FirstHarmful(ps: seq<Policy>, t: seq<Policy>, i: nat, q: nat, c: Connection) returns (x: nat)
    requires i <= q < |ps| && MatchIndex(t, c) < |t| && !Harmless(t, ps[q], c)
    ensures i <= x <= q && !Harmless(t, ps[x], c) && forall y :: i <= y < x ==> Harmless(t, ps[y], c)
    decreases q
  {
    x := q;
    if y :| i <= y < q && !Harmless(t, ps[y], c) { x := FirstHarmful(ps, t, i, y, c); }
  }

  /** With distinct AppIds every later record is harmless: a match once found stays. */
  lemma PrefixMatchIsFinal(ps: seq<Policy>, i: nat, j: nat, c: Connection)
    requires Distinct(ps) && i <= j <= |ps|
    requires FirstMatch(Fold(ps[..i]), c).Some?
    ensures FirstMatch(Fold(ps[..j]), c) == FirstMatch(Fold(ps[..i]), c)
  {
    FoldDistinct(ps[..i]);
    forall q | i <= q < j ensures Harmless(ps[..i], ps[q], c) {
      assert forall x :: 0 <= x < i ==> ps[..i][x].key != ps[q].key;
    }
    MatchFinalExactly(ps, i, j, c);
  }

  /** A record that is not harmless: a repeated AppId takes back a match already seen. */
  lemma RepeatedKeyChangesMatch() returns (ps: seq<Policy>, c: Connection)
    ensures |ps| == 2 && FirstMatch(Fold(ps[..1]), c).Some? && FirstMatch(Fold(ps), c).None?
  {
    var a := Record(1, 7, PolicyBody(1, MATCH_NONE, "", 0));
    var b := Record(1, 7, PolicyBody(1, 2, "", 0));
    ps, c := [a, b], Connection(OtherLayer, NotABlob);
    FoldStep(ps, 0);
    FoldStep(ps, 1);
    assert ps[..0] == [] && ps[..2] == ps;
    assert Fold(ps[..1]) == [a];
    assert Fold(ps) == [b];
  }

  // ----- what the payload decides -----

  /** Lookup uses a connection only through whether it carries a non-empty ALE_APP_ID blob. */
  predicate HasBlob(c: Connection) {
    BlobSize(c).Some? && 0 < BlobSize(c).value
  }

  predicate KindDecides(kind: U32, blob: bool) {
    kind == MATCH_NONE || (blob && kind == MATCH_PROCESS_PATH)
  }

  /** The match kind the payload finally gives the AppId of its record j. */
  function FinalKind(ps: seq<Policy>, j: nat): U32
    requires j < |ps|
  {
    assert 0 <= LastIndex(ps, ps[j].key);
    ps[LastIndex(ps, ps[j].key)].body.matchKind
  }

  /** Position at or after `from` of the first record whose AppId finally decides, or the payload's length. */
  function DeciderFrom(ps: seq<Policy>, blob: bool, from: nat): (j: nat)
    requires from <= |ps|
    ensures from <= j <= |ps|
    ensures j < |ps| ==> KindDecides(FinalKind(ps, j), blob)
    ensures forall x :: from <= x < j ==> !KindDecides(FinalKind(ps, x), blob)
    decreases |ps| - from
  {
    if from == |ps| || KindDecides(FinalKind(ps, from), blob) then from else DeciderFrom(ps, blob, from + 1)
  }

  /** The first AppId of the payload, by first occurrence, whose last record decides. */
  function Decider(ps: seq<Policy>, blob: bool): Option<AppId> {
    var j := DeciderFrom(ps, blob, 0);
    if j < |ps| then Some(ps[j].key) else None
  }

  /** The finally deciding AppIds of a payload have matching records in its table. */
  lemma MatchByDecider(t: seq<Policy>, ps: seq<Policy>, j: nat, c: Connection)
    requires LastRecords(t, ps) && Covers(t, ps) && j < |ps| && KindDecides(FinalKind(ps, j), HasBlob(c))
    ensures Contains(t, ps[j].key) && Matches(t[IndexOf(t, ps[j].key)], c)
  {
    assert Contains(t, ps[j].key);
  }

  /** A matching record of the table comes from an AppId the payload finally makes decide. */
  lemma DeciderByMatch(t: seq<Policy>, ps: seq<Policy>, m: nat, c: Connection)
    requires LastRecords(t, ps) && m < |t| && Matches(t[m], c)
    ensures var i := IndexOf(ps, t[m].key);
            i < |ps| && ps[i].key == t[m].key && KindDecides(FinalKind(ps, i), HasBlob(c))
  {
    assert ps[LastIndex(ps, t[m].key)].key == t[m].key;
  }

  /** The policy that decides after a Sync, read off its payload. */
  lemma MatchFromPayload(ps: seq<Policy>, c: Connection)
    ensures FirstMatch(Fold(ps), c) ==
            match Decider(ps, HasBlob(c)) case None => None case Some(k) => Lookup(Fold(ps), k)
  {
    var t, j, m := Fold(ps), DeciderFrom(ps, HasBlob(c), 0), MatchIndex(Fold(ps), c);
    FoldIsSyncImage(ps);
    if j < |ps| {
      MatchByDecider(t, ps, j, c);
      DeciderByMatch(t, ps, m, c);
      FirstOrderStrict(t, ps, m, IndexOf(t, ps[j].key));
      assert m == IndexOf(t, ps[j].key);
    } else if m < |t| {
      DeciderByMatch(t, ps, m, c);
      assert false;
    }
  }

  /** A connection with a non-empty blob, and one without. */
  function Probe(blob: bool): (c: Connection)
    ensures HasBlob(c) == blob
  {
    Connection(AuthConnectV4, if blob then Blob(1) else NotABlob)
  }

  /** No connection can tell the tables apart. */
  ghost predicate SameMatches(t: seq<Policy>, u: seq<Policy>) {
    forall c :: FirstMatch(t, c) == FirstMatch(u, c)
  }

  /**
   A key-stable reordering of the payload leaves every connection's deciding policy the same
   exactly when it moves neither the first AppId whose last record matches everything nor the
   first whose last record matches every connection with a blob.
   */
  lemma ReorderedMatches(ps: seq<Policy>, ps': seq<Policy>)
    requires KeyStableReordering(ps, ps')
    ensures SameMatches(Fold(ps), Fold(ps'))
            <==> Decider(ps, false) == Decider(ps', false) && Decider(ps, true) == Decider(ps', true)
  {
    if SameMatches(Fold(ps), Fold(ps')) {
      SameDecider(ps, ps', Probe(false));
      SameDecider(ps, ps', Probe(true));
    }
    if Decider(ps, false) == Decider(ps', false) && Decider(ps, true) == Decider(ps', true) {
      forall c ensures FirstMatch(Fold(ps), c) == FirstMatch(Fold(ps'), c) { SameMatch(ps, ps', c); }
    }
  }

  lemma SameMatch(ps: seq<Policy>, ps': seq<Policy>, c: Connection)
    requires KeyStableReordering(ps, ps') && Decider(ps, HasBlob(c)) == Decider(ps', HasBlob(c))
    ensures FirstMatch(Fold(ps), c) == FirstMatch(Fold(ps'), c)
  {
    MatchFromPayload(ps, c);
    MatchFromPayload(ps', c);
    if Decider(ps, HasBlob(c)).Some? { ReorderedLookup(ps, ps', Decider(ps, HasBlob(c)).value); }
  }

  lemma SameDecider(ps: seq<Policy>, ps': seq<Policy>, c: Connection)
    requires FirstMatch(Fold(ps), c) == FirstMatch(Fold(ps'), c)
    ensures Decider(ps, HasBlob(c)) == Decider(ps', HasBlob(c))
  {
    DeciderKey(ps, c);
    DeciderKey(ps', c);
  }

  lemma DeciderKey(ps: seq<Policy>, c: Connection)
    ensures Decider(ps, HasBlob(c)) ==
            match FirstMatch(Fold(ps), c) case None => None case Some(p) => Some(p.key)
  {
    MatchFromPayload(ps, c);
    if Decider(ps, HasBlob(c)).Some? {
      FoldIsSyncImage(ps);
      assert Contains(Fold(ps), ps[DeciderFrom(ps, HasBlob(c), 0)].key);
    }
  }

  /** A reordering that moves one of them: the same connection is decided differently. */
  lemma ReorderingCanChangeMatch() returns (ps: seq<Policy>, ps': seq<Policy>, c: Connection)
    ensures KeyStableReordering(ps, ps') && FirstMatch(Fold(ps), c) != FirstMatch(Fold(ps'), c)
  {
    var a := Record(1, 7, PolicyBody(0, MATCH_NONE, "", 0));
    var b := Record(1, 8, PolicyBody(1, MATCH_NONE, "", 0));
    ps, ps', c := [a, b], [b, a], Connection(OtherLayer, NotABlob);
    FoldDistinct(ps);
    FoldDistinct(ps');
    RestrictPair(a, b);
    RestrictPair(b, a);
    assert Matches(ps[0], c) && Matches(ps'[0], c);
  }

  lemma RestrictPair(a: Policy, b: Policy)
    requires a.key != b.key
    ensures forall k :: Restrict([a, b], k) == if k == a.key then [a] else if k == b.key then [b] else []
  {
    forall k ensures Restrict([a, b], k) == if k == a.key then [a] else if k == b.key then [b] else [] {
      assert [a, b][..1] == [a] && [a][..0] == [];
      assert Restrict([a], k) == if k == a.key then [a] else [];
    }
  }
}

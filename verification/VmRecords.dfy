/** Lists of VM indices, as every PM record holds one, and what it means that they describe where the VMs run. */
module VmRecords {

  ghost predicate ValidLocation(loc: seq<nat>, pms: nat) {
    forall v :: 0 <= v < |loc| ==> loc[v] < pms
  }

  /** `rec` lists, without repetition, exactly the VMs below `k` that run on PM `m`. */
  ghost predicate ListsUpTo(rec: seq<nat>, loc: seq<nat>, m: nat, k: nat)
    requires k <= |loc|
  {
    && (forall i, j :: 0 <= i < j < |rec| ==> rec[i] != rec[j])
    && (forall v: nat :: v in rec <==> v < k && loc[v] == m)
  }

  ghost predicate Lists(rec: seq<nat>, loc: seq<nat>, m: nat) {
    ListsUpTo(rec, loc, m, |loc|)
  }

  function RemoveSlot(rec: seq<nat>, i: nat): seq<nat>
    requires i < |rec|
  {
    rec[..i] + rec[i + 1..]
  }

  /** The rest moves up and keeps its order. */
  lemma RemoveSlotShifts(rec: seq<nat>, i: nat, j: nat)
    requires i < |rec| && j < |rec| - 1
    ensures |RemoveSlot(rec, i)| == |rec| - 1 && RemoveSlot(rec, i)[j] == if j < i then rec[j] else rec[j + 1]
  {
  }

  /** Position of `v` in a record; the record's length when it is not there. */
  function Find(rec: seq<nat>, v: nat): (i: nat)
    ensures i <= |rec| && v !in rec[..i]
    ensures i < |rec| ==> rec[i] == v
    ensures v in rec <==> i < |rec|
  {
    if rec == [] then 0 else if rec[0] == v then 0 else 1 + Find(rec[1..], v)
  }

  lemma ListedInRange(rec: seq<nat>, loc: seq<nat>, m: nat, k: nat)
    requires k <= |loc| && ListsUpTo(rec, loc, m, k)
    ensures forall i :: 0 <= i < |rec| ==> rec[i] < k && loc[rec[i]] == m
    ensures k == 0 ==> rec == []
  {
    assert |rec| > 0 ==> rec[0] in rec;
    forall i | 0 <= i < |rec| ensures rec[i] < k && loc[rec[i]] == m {
      assert rec[i] in rec;
    }
  }

  lemma RemoveSlotLists(rec: seq<nat>, loc: seq<nat>, m: nat, k: nat, i: nat)
    requires k < |loc| && ListsUpTo(rec, loc, m, k + 1) && i < |rec| && rec[i] == k
    ensures ListsUpTo(RemoveSlot(rec, i), loc, m, k)
  {
    var r := RemoveSlot(rec, i);
    forall v: nat ensures v in r <==> v < k && loc[v] == m {
      if v in rec && v != k {
        var j :| 0 <= j < |rec| && rec[j] == v;
        assert r[if j < i then j else j - 1] == v;
      }
    }
  }

  lemma MovedLists(rec: seq<nat>, loc: seq<nat>, v: nat, to: nat, m: nat)
    requires v < |loc| && loc[v] != to && Lists(rec, loc, m)
    ensures m != to && m != loc[v] ==> Lists(rec, loc[v := to], m)
    ensures m == to ==> Lists(rec + [v], loc[v := to], m)
  {
    var rec' := rec + [v];
    assert forall w: nat :: w in rec' <==> w in rec || w == v;
  }

  lemma LeftLists(rec: seq<nat>, loc: seq<nat>, v: nat, to: nat, i: nat)
    requires v < |loc| && loc[v] != to && Lists(rec, loc, loc[v]) && i < |rec| && rec[i] == v
    ensures Lists(RemoveSlot(rec, i), loc[v := to], loc[v])
  {
    var r := RemoveSlot(rec, i);
    forall w: nat ensures w in r <==> w in rec && w != v {
      if w in rec && w != v {
        var j :| 0 <= j < |rec| && rec[j] == w;
        assert r[if j < i then j else j - 1] == w;
      }
    }
  }

  /** A VM that leaves a PM and comes back is listed last. */
  lemma ReturnedLists(rec: seq<nat>, loc: seq<nat>, m: nat, i: nat)
    requires Lists(rec, loc, m) && i < |rec|
    ensures Lists(RemoveSlot(rec, i) + [rec[i]], loc, m)
  {
    var r := RemoveSlot(rec, i) + [rec[i]];
    forall w: nat ensures w in r <==> w in rec {
      if w in rec {
        var j :| 0 <= j < |rec| && rec[j] == w;
        assert r[if j < i then j else if j == i then |rec| - 1 else j - 1] == w;
      }
    }
  }

  /** How many of the first `k` VMs run on PM `m`. */
  function CountOn(loc: seq<nat>, m: nat, k: nat): nat
    requires k <= |loc|
  {
    if k == 0 then 0 else CountOn(loc, m, k - 1) + if loc[k - 1] == m then 1 else 0
  }

  lemma {:induction false} MoveChangesCount(loc: seq<nat>, v: nat, to: nat, m: nat, k: nat)
    requires k <= |loc| && v < |loc| && to != loc[v]
    ensures CountOn(loc[v := to], m, k) - CountOn(loc, m, k)
         == if v >= k then 0 else if m == to then 1 else if m == loc[v] then -1 else 0
  {
    if k > 0 {
      MoveChangesCount(loc, v, to, m, k - 1);
    }
  }

  lemma {:induction false} ListedCount(rec: seq<nat>, loc: seq<nat>, m: nat, k: nat)
    requires k <= |loc| && ListsUpTo(rec, loc, m, k)
    ensures |rec| == CountOn(loc, m, k)
  {
    ListedInRange(rec, loc, m, k);
    if k > 0 {
      if loc[k - 1] == m {
        var i := Find(rec, k - 1);
        RemoveSlotLists(rec, loc, m, k - 1, i);
        ListedCount(RemoveSlot(rec, i), loc, m, k - 1);
      } else {
        ListedCount(rec, loc, m, k - 1);
      }
    }
  }

  /** VMs of the first `k` that run on the first `n` PMs. */
  function CountAll(loc: seq<nat>, n: nat, k: nat): nat
    requires k <= |loc|
  {
    if n == 0 then 0 else CountAll(loc, n - 1, k) + CountOn(loc, n - 1, k)
  }

  lemma {:induction false} CountAllStep(loc: seq<nat>, n: nat, k: nat)
    requires k < |loc|
    ensures CountAll(loc, n, k + 1) == CountAll(loc, n, k) + if loc[k] < n then 1 else 0
  {
    if n > 0 { CountAllStep(loc, n - 1, k); }
  }

  lemma {:induction false} CountAllIsAll(loc: seq<nat>, n: nat, k: nat)
    requires k <= |loc| && ValidLocation(loc, n)
    ensures CountAll(loc, n, k) == k
  {
    if k == 0 {
      CountNone(loc, n);
    } else {
      CountAllIsAll(loc, n, k - 1);
      CountAllStep(loc, n, k - 1);
    }
  }

  lemma {:induction false} CountNone(loc: seq<nat>, n: nat)
    ensures CountAll(loc, n, 0) == 0
  {
    if n > 0 { CountNone(loc, n - 1); }
  }
}

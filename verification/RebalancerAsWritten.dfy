/** `place_vm` as it is written (simgrid/simgrid-project/hpvc.c:444-487): the target record gets `placement.target_pm` where the
    list holds VM indices, and the shift in the source record moves as many bytes as it should move ints. This module says
    exactly when the records still describe where the VMs run. */
module RebalancerAsWritten {
  import opened Arithmetic
  import opened Rebalancing
  import opened VmRecords

  /** An int whose low bytes, up to weight `base`, are replaced by those of another. */
  function Mix(high: nat, low: nat, base: nat): nat
    requires base > 0
  {
    high / base * base + low % base
  }

  /** The source record after the written shift: `memmove` of |rec| - i bytes from slot i + 1 to slot i (4-byte ints, low byte
      first), then one slot fewer. */
  function WrittenRemove(rec: seq<nat>, i: nat): seq<nat>
    requires i < |rec| <= MAX_VM_TO_PM
  {
    match |rec| - i
    case 1 => rec[..i]
    case 2 => rec[..i] + [Mix(rec[i], rec[i + 1], 0x1_0000)]
    case 3 => rec[..i] + [Mix(rec[i], rec[i + 1], 0x100_0000), rec[i + 1]]
    case 4 => rec[..i] + [rec[i + 1], rec[i + 1], rec[i + 2]]
    case _ => [rec[1], Mix(rec[1], rec[2], 0x100), rec[2], rec[3]]
  }

  /** The written shift does no harm in these cases only: at the last slot, at the last but one if the two ints agree in their
      upper halves, and otherwise by a coincidence of values. */
  predicate HarmlessShift(rec: seq<nat>, i: nat)
    requires i < |rec| <= MAX_VM_TO_PM
  {
    match |rec| - i
    case 1 => true
    case 2 => rec[i] / 0x1_0000 == rec[i + 1] / 0x1_0000
    case 3 => Mix(rec[i], rec[i + 1], 0x100_0000) == rec[i + 2]
    case 4 => false
    case _ => Mix(rec[1], rec[2], 0x100) == rec[4]
  }

  lemma MixIsLow(high: nat, low: nat)
    ensures Mix(high, low, 0x1_0000) == low <==> high / 0x1_0000 == low / 0x1_0000
  {
  }

  /** Two records that agree in all slots but one cannot both be right unless they agree there too. */
  lemma OneSlotOff(good: seq<nat>, rec: seq<nat>, loc: seq<nat>, m: nat, p: nat)
    requires Lists(good, loc, m) && |rec| == |good| && p < |rec|
    requires forall q :: 0 <= q < |rec| && q != p ==> rec[q] == good[q]
    ensures Lists(rec, loc, m) <==> rec[p] == good[p]
  {
    assert good[p] in good;
    if rec[p] == good[p] {
      assert rec == good;
    } else {
      forall q | 0 <= q < |rec| ensures rec[q] != good[p] {
        assert q != p ==> good[q] != good[p];
      }
    }
  }

  lemma WrittenShift(rec: seq<nat>, loc: seq<nat>, v: nat, to: nat, i: nat)
    requires v < |loc| && loc[v] != to && Lists(rec, loc, loc[v]) && i < |rec| <= MAX_VM_TO_PM && rec[i] == v
    ensures Lists(WrittenRemove(rec, i), loc[v := to], loc[v]) <==> HarmlessShift(rec, i)
  {
    var m, loc', r, good := loc[v], loc[v := to], WrittenRemove(rec, i), RemoveSlot(rec, i);
    LeftLists(rec, loc, v, to, i);
    match |rec| - i {
      case 1 =>
        assert r == good;
      case 2 =>
        assert good == rec[..i] + [rec[i + 1]];
        OneSlotOff(good, r, loc', m, i);
        MixIsLow(rec[i], rec[i + 1]);
      case 3 =>
        assert good == rec[..i] + [rec[i + 1], rec[i + 2]];
        var swapped := rec[..i] + [rec[i + 2], rec[i + 1]];
        assert Lists(swapped, loc', m) by { Reordered(good, swapped, loc', m); }
        OneSlotOff(swapped, r, loc', m, i);
      case 4 =>
        assert r[i] == r[i + 1];
      case _ =>
        assert good == [rec[1], rec[2], rec[3], rec[4]];
        var rotated := [rec[1], rec[4], rec[2], rec[3]];
        assert Lists(rotated, loc', m) by { Reordered(good, rotated, loc', m); }
        OneSlotOff(rotated, r, loc', m, 1);
    }
  }

  lemma Reordered(good: seq<nat>, rec: seq<nat>, loc: seq<nat>, m: nat)
    requires Lists(good, loc, m)
    requires forall a, b :: 0 <= a < b < |rec| ==> rec[a] != rec[b]
    requires forall w: nat :: w in rec <==> w in good
    ensures Lists(rec, loc, m)
  {
  }

  /** After an accepted migration of `v` from `rec` to `to`, the written bookkeeping describes where the VMs run if and only
      if the target's index happens to equal the VM's and the shift was harmless. */
  lemma WrittenPlaceVm(records: seq<seq<nat>>, loc: seq<nat>, v: nat, to: nat, i: nat)
    requires v < |loc| && loc[v] < |records| && to < |records| && to != loc[v]
    requires forall m :: 0 <= m < |records| ==> Lists(records[m], loc, m) && |records[m]| <= MAX_VM_TO_PM
    requires i < |records[loc[v]]| && records[loc[v]][i] == v
    ensures (forall m :: 0 <= m < |records| ==> Lists(WrittenRecords(records, loc, v, to, i)[m], loc[v := to], m))
       <==> (v == to && HarmlessShift(records[loc[v]], i))
  {
    var after, loc' := WrittenRecords(records, loc, v, to, i), loc[v := to];
    WrittenShift(records[loc[v]], loc, v, to, i);
    forall m | 0 <= m < |records| && m != to && m != loc[v] ensures Lists(after[m], loc', m) {
      MovedLists(records[m], loc, v, to, m);
    }
    assert after[to] == records[to] + [to];
    assert after[loc[v]] == WrittenRemove(records[loc[v]], i);
    if v == to {
      MovedLists(records[to], loc, v, to, to);
    } else {
      assert v !in records[to] && v !in after[to];
      assert !Lists(after[to], loc', to);
    }
  }

  /** All records after the written `place_vm` with room at the target. */
  function WrittenRecords(records: seq<seq<nat>>, loc: seq<nat>, v: nat, to: nat, i: nat): seq<seq<nat>>
    requires v < |loc| && loc[v] < |records| && to < |records| && to != loc[v]
    requires i < |records[loc[v]]| <= MAX_VM_TO_PM
  {
    records[to := records[to] + [to]][loc[v] := WrittenRemove(records[loc[v]], i)]
  }

  /** The low part comes from one int, the high part from the other. */
  lemma MixedParts(high: nat, low: nat, base: nat)
    requires base > 0
    ensures Mix(high, low, base) % base == low % base && Mix(high, low, base) / base == high / base
  {
    DivIs(high / base, low % base, base);
  }

  /** How many of the four bytes of slot `q` are moved when `bytes` bytes from slot `i` on are. */
  function MovedBytes(i: nat, q: nat, bytes: nat): nat {
    if q < i || 4 * q >= 4 * i + bytes then 0 else if 4 * i + bytes - 4 * q < 4 then 4 * i + bytes - 4 * q else 4
  }

  lemma ByteWeights()
    ensures Power(0x100, 0) == 1 && Power(0x100, 1) == 0x100 && Power(0x100, 2) == 0x1_0000
    ensures Power(0x100, 3) == 0x100_0000 && Power(0x100, 4) == 0x1_0000_0000
  {
    assert Power(0x100, 1) == 0x100 && Power(0x100, 2) == 0x1_0000;
  }

  /** A slot after the shift, by how many of its bytes are moved. */
  lemma WrittenSlot(rec: seq<nat>, i: nat, q: nat)
    requires i < |rec| <= MAX_VM_TO_PM && q < |rec| - 1
    ensures |WrittenRemove(rec, i)| == |rec| - 1
    ensures var r, moved := WrittenRemove(rec, i)[q], MovedBytes(i, q, |rec| - i);
      r == if moved == 0 then rec[q]
           else if moved == 1 then Mix(rec[q], rec[q + 1], 0x100)
           else if moved == 2 then Mix(rec[q], rec[q + 1], 0x1_0000)
           else if moved == 3 then Mix(rec[q], rec[q + 1], 0x100_0000)
           else rec[q + 1]
  {
  }

  /** The written shift is that `memmove`: a slot that stays has as many low bytes from the next slot as the |rec| - i bytes from
      slot `i` on reach into it, and keeps its others. */
  lemma WrittenRemoveIsMemmove(rec: seq<nat>, i: nat, q: nat)
    requires i < |rec| <= MAX_VM_TO_PM && q < |rec| - 1
    requires rec[q] < 0x1_0000_0000 && rec[q + 1] < 0x1_0000_0000
    ensures |WrittenRemove(rec, i)| == |rec| - 1
    ensures var r, weight := WrittenRemove(rec, i)[q], Power(0x100, MovedBytes(i, q, |rec| - i));
      r % weight == rec[q + 1] % weight && r / weight == rec[q] / weight
  {
    ByteWeights();
    WrittenSlot(rec, i, q);
    MixedParts(rec[q], rec[q + 1], Power(0x100, MovedBytes(i, q, |rec| - i)));
  }
}

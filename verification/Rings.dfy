/** Descriptor rings in the abstract, and how the two tables of a core lie in the RAM. */
module Rings {
  import opened BitOps
  import opened Leon3Ram
  import opened Dma

  /** What decides the path through a ring: is the slot enabled, does it wrap back to slot 0. */
  datatype Slot = Slot(enabled: bool, wraps: bool)

  type Ring = seq<Slot>

  function Indices(n: nat): (s: set<nat>)
    ensures forall k: nat :: k in s <==> k < n
  {
    if n == 0 then {} else Indices(n - 1) + {n - 1}
  }

  /** The slots used one after the other from slot k on, until one is disabled or was seen before. */
  function Run(ring: Ring, k: nat, seen: set<nat>): (s: seq<nat>)
    requires k < |ring|
    ensures forall i :: 0 <= i < |s| ==> s[i] < |ring| && s[i] !in seen && ring[s[i]].enabled
    decreases Indices(|ring|) - seen
  {
    if k in seen || !ring[k].enabled then []
    else
      assert k in Indices(|ring|) - seen && k !in Indices(|ring|) - (seen + {k});
      [k] + Run(ring, NextSlot(k, ring[k].wraps, |ring|), seen + {k})
  }

  /** The slot at which the run stops. */
  function RunEnd(ring: Ring, k: nat, seen: set<nat>): (e: nat)
    requires k < |ring|
    ensures e < |ring|
    decreases Indices(|ring|) - seen
  {
    if k in seen || !ring[k].enabled then k
    else
      assert k in Indices(|ring|) - seen && k !in Indices(|ring|) - (seen + {k});
      RunEnd(ring, NextSlot(k, ring[k].wraps, |ring|), seen + {k})
  }

  function Members(s: seq<nat>): set<nat> {
    set i | 0 <= i < |s| :: s[i]
  }

  /** The slot after slot k of a ring of n: 0 if it wraps or is the last one. */
  function Successor(k: nat, wraps: bool, n: nat): nat {
    if wraps || k == n - 1 then 0 else k + 1
  }

  lemma NextIsSuccessor(k: nat, wraps: bool, n: nat)
    requires k < n
    ensures NextSlot(k, wraps, n) == Successor(k, wraps, n)
  {
    if k == n - 1 {
      DivUnique(n, n, 1, 0);
    } else {
      DivUnique(k + 1, n, 0, k + 1);
    }
  }

  /** A run visits no slot twice, goes from each slot to the one after it, and cannot be extended. */
  lemma {:induction false} RunIsMaximal(ring: Ring, k: nat, seen: set<nat>)
    requires k < |ring|
    ensures var s, e := Run(ring, k, seen), RunEnd(ring, k, seen);
            && (forall i, j :: 0 <= i < j < |s| ==> s[i] != s[j])
            && (if s == [] then e == k else s[0] == k && e == Successor(s[|s| - 1], ring[s[|s| - 1]].wraps, |ring|))
            && (forall i :: 0 <= i < |s| - 1 ==> s[i + 1] == Successor(s[i], ring[s[i]].wraps, |ring|))
            && (!ring[e].enabled || e in seen || e in s)
    decreases Indices(|ring|) - seen
  {
    if k !in seen && ring[k].enabled {
      assert k in Indices(|ring|) - seen && k !in Indices(|ring|) - (seen + {k});
      var n := NextSlot(k, ring[k].wraps, |ring|);
      NextIsSuccessor(k, ring[k].wraps, |ring|);
      RunIsMaximal(ring, n, seen + {k});
      var s, t := Run(ring, k, seen), Run(ring, n, seen + {k});
      assert s == [k] + t;
      var e := RunEnd(ring, k, seen);
      if e in t {
        var i :| 0 <= i < |t| && t[i] == e;
        assert s[i + 1] == e;
      } else if e == k {
        assert s[0] == e;
      }
    }
  }

  /** How many slots are enabled. */
  function Count(ring: Ring): (n: nat)
    ensures n <= |ring|
  {
    if ring == [] then 0 else Count(ring[1..]) + if ring[0].enabled then 1 else 0
  }

  lemma {:induction false} CountDisabled(ring: Ring, k: nat, slot: Slot)
    requires k < |ring| && ring[k].enabled && !slot.enabled
    ensures Count(ring[k := slot]) == Count(ring) - 1
  {
    if k == 0 {
      assert ring[k := slot][1..] == ring[1..];
    } else {
      CountDisabled(ring[1..], k - 1, slot);
      assert ring[k := slot][1..] == ring[1..][k - 1 := slot];
    }
  }

  // ---- the tables ----

  function TableBase(address: uint32): (b: uint32)
    ensures b <= address
  {
    address - address % TABLE_SIZE
  }

  function TxTableAt(m: Mem, base: nat): (t: seq<TxDescr>)
    ensures |t| == TX_SLOTS
    ensures forall k :: 0 <= k < TX_SLOTS ==> t[k] == TxLoad(m, base + TX_SLOT_SIZE * k)
  {
    seq(TX_SLOTS, k requires 0 <= k < TX_SLOTS => TxLoad(m, base + TX_SLOT_SIZE * k))
  }

  function RxTableAt(m: Mem, base: nat): (t: seq<RxDescr>)
    ensures |t| == RX_SLOTS
    ensures forall k :: 0 <= k < RX_SLOTS ==> t[k] == RxLoad(m, base + RX_SLOT_SIZE * k)
  {
    seq(RX_SLOTS, k requires 0 <= k < RX_SLOTS => RxLoad(m, base + RX_SLOT_SIZE * k))
  }

  function TxRing(t: seq<TxDescr>): (r: Ring)
    ensures |r| == |t|
    ensures forall k :: 0 <= k < |t| ==> r[k] == Slot(t[k].Enabled(), t[k].Wraps())
  {
    seq(|t|, k requires 0 <= k < |t| => Slot(t[k].Enabled(), t[k].Wraps()))
  }

  function RxRing(t: seq<RxDescr>): (r: Ring)
    ensures |r| == |t|
    ensures forall k :: 0 <= k < |t| ==> r[k] == Slot(t[k].Enabled(), t[k].Wraps())
  {
    seq(|t|, k requires 0 <= k < |t| => Slot(t[k].Enabled(), t[k].Wraps()))
  }

  /** The select field of the address register is the cursor. */
  predicate TxAligned(d: Dev) {
    d.regs.txd == TableBase(d.regs.txd) + TX_SLOT_SIZE * d.txdCur
  }

  predicate RxAligned(d: Dev) {
    d.regs.rxd == TableBase(d.regs.rxd) + RX_SLOT_SIZE * d.rxdCur
  }

  /** Selecting a descriptor keeps the table and sets the select field. */
  lemma TxSelectExact(txd: uint32, cur: nat)
    requires txd % 16 == 0 && cur < TX_SLOTS
    ensures TxSelect(txd, cur) == TableBase(txd) + TX_SLOT_SIZE * cur
    ensures TableBase(TxSelect(txd, cur)) == TableBase(txd) && TxSelect(txd, cur) % 16 == 0
  {
    SelectExact(TableBase(txd), TX_SLOT_SIZE * cur);
  }

  lemma RxSelectExact(rxd: uint32, cur: nat)
    requires rxd % 8 == 0 && cur < RX_SLOTS
    ensures RxSelect(rxd, cur) == TableBase(rxd) + RX_SLOT_SIZE * cur
    ensures TableBase(RxSelect(rxd, cur)) == TableBase(rxd) && RxSelect(rxd, cur) % 8 == 0
  {
    SelectExact(TableBase(rxd), RX_SLOT_SIZE * cur);
  }

  lemma SelectExact(base: nat, select: nat)
    requires base % TABLE_SIZE == 0 && select < TABLE_SIZE
    ensures (base + select) % TABLE_SIZE == select
    ensures (base + select) % 16 == select % 16
    ensures (base + select) % 8 == select % 8
  {
    var q := base / TABLE_SIZE;
    Digit(base + select, TABLE_SIZE, q, select);
    Digit(base + select, 16, 64 * q + select / 16, select % 16);
    Digit(base + select, 8, 128 * q + select / 8, select % 8);
  }

  /** The bytes outside the kilobyte at base. */
  ghost predicate AgreeOutside(m: Mem, m': Mem, base: nat) {
    forall x: nat {:trigger At(m, x)} {:trigger At(m', x)} :: x < base || base + TABLE_SIZE <= x ==>
        At(m, x) == At(m', x)
  }

  lemma WriteWordOutside(m: Mem, base: nat, a: nat, c: uint32)
    requires base <= a && a + 4 <= base + TABLE_SIZE
    ensures AgreeOutside(m, WriteWord(m, a, c), base)
  {
  }

  /** Writing the control word of one slot changes that control word and nothing else. */
  lemma TxControlWritten(m: Mem, base: nat, j: nat, c: uint32)
    requires j < TX_SLOTS
    ensures var m' := WriteWord(m, base + TX_SLOT_SIZE * j, c); var t := TxTableAt(m, base);
            TxTableAt(m', base) == t[j := t[j].(ctrl := c)] && AgreeOutside(m, m', base)
  {
    hide ReadWord, WriteWord, AgreeOutside;
    var a := base + TX_SLOT_SIZE * j;
    var m' := WriteWord(m, a, c);
    ReadWritten(m, a, c);
    WriteWordOutside(m, base, a, c);
    forall k | 0 <= k < TX_SLOTS
      ensures TxTableAt(m', base)[k] == if k == j then TxLoad(m, a).(ctrl := c) else TxLoad(m, base + TX_SLOT_SIZE * k)
    {
      var b := base + TX_SLOT_SIZE * k;
      ReadOther(m, a, c, b + 4);
      ReadOther(m, a, c, b + 8);
      ReadOther(m, a, c, b + 12);
      if k != j { ReadOther(m, a, c, b); }
    }
  }

  lemma RxControlWritten(m: Mem, base: nat, j: nat, c: uint32)
    requires j < RX_SLOTS
    ensures var m' := WriteWord(m, base + RX_SLOT_SIZE * j, c); var t := RxTableAt(m, base);
            RxTableAt(m', base) == t[j := t[j].(ctrl := c)] && AgreeOutside(m, m', base)
  {
    hide ReadWord, WriteWord, AgreeOutside;
    var a := base + RX_SLOT_SIZE * j;
    var m' := WriteWord(m, a, c);
    ReadWritten(m, a, c);
    WriteWordOutside(m, base, a, c);
    forall k | 0 <= k < RX_SLOTS
      ensures RxTableAt(m', base)[k] == if k == j then RxLoad(m, a).(ctrl := c) else RxLoad(m, base + RX_SLOT_SIZE * k)
    {
      var b := base + RX_SLOT_SIZE * k;
      ReadOther(m, a, c, b + 4);
      if k != j { ReadOther(m, a, c, b); }
    }
  }
}

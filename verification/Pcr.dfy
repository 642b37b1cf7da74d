/** TPM2_PCR_Read, which returns as many registers as one response holds, and
  TPM2_PCR_Allocate (Part 3 sections 22.4 and 22.5). */
module Pcr {
  import opened Prelude
  import opened PcrBanks

  const HASH_COUNT := 8
  const MAX_DIGEST_LIST := 8

  /** TPMS_PCR_SELECTION: a bank, and a bit for each register. */
  datatype Selection = Selection(alg: uint16, bits: seq<bool>)

  type Banks = map<uint16, Bank>

  ghost predicate AllWhole(banks: Banks) {
    forall a :: a in banks ==> banks[a].alg == a && banks[a].Whole()
  }

  /** One register of one bank. */
  datatype Slot = Slot(alg: uint16, index: nat)

  // ---- Reading a selection ----

  predicate Kept(banks: Banks, alg: uint16, index: nat)
    requires AllWhole(banks)
  {
    alg in banks && index < IMPLEMENTATION_PCR && banks[alg].present[index]
  }

  function Padded(bits: seq<bool>): seq<bool> {
    if |bits| < IMPLEMENTATION_PCR then bits + seq(IMPLEMENTATION_PCR - |bits|, i => false) else bits
  }

  function FilteredRow(banks: Banks, sel: Selection): Selection
    requires AllWhole(banks)
  {
    var bits := Padded(sel.bits);
    sel.(bits := seq(|bits|, i requires 0 <= i < |bits| => bits[i] && Kept(banks, sel.alg, i)))
  }

  function Filtered(banks: Banks, sels: seq<Selection>): seq<Selection>
    requires AllWhole(banks)
  {
    seq(|sels|, i requires 0 <= i < |sels| => FilteredRow(banks, sels[i]))
  }

  /** The registers a row selects, in increasing order, counting its bits from `base`. */
  function Chosen(alg: uint16, bits: seq<bool>, base: nat): seq<Slot> {
    if bits == [] then []
    else (if bits[0] then [Slot(alg, base)] else []) + Chosen(alg, bits[1..], base + 1)
  }

  /** The registers a selection names, in the order it names them. */
  function Slots(sels: seq<Selection>): seq<Slot> {
    if sels == [] then [] else Chosen(sels[0].alg, sels[0].bits, 0) + Slots(sels[1..])
  }

  function Value(banks: Banks, slot: Slot): Bytes
    requires AllWhole(banks)
  {
    if slot.alg in banks && slot.index < IMPLEMENTATION_PCR then banks[slot.alg].registers[slot.index] else []
  }

  function Values(banks: Banks, slots: seq<Slot>): seq<Bytes>
    requires AllWhole(banks)
  {
    seq(|slots|, i requires 0 <= i < |slots| => Value(banks, slots[i]))
  }

  // ---- Trimming ----

  /** The row without the bits past the first `remaining` that are set, and how many are still to come. */
  function TrimRow(bits: seq<bool>, remaining: nat): (r: (seq<bool>, nat))
    ensures |r.0| == |bits|
  {
    if bits == [] then ([], remaining)
    else
      var keep := bits[0] && remaining > 0;
      var rest := TrimRow(bits[1..], if keep then remaining - 1 else remaining);
      ([keep] + rest.0, rest.1)
  }

  function Trimmed(sels: seq<Selection>, remaining: nat): seq<Selection> {
    if sels == [] then []
    else
      var row := TrimRow(sels[0].bits, remaining);
      [sels[0].(bits := row.0)] + Trimmed(sels[1..], row.1)
  }

  lemma {:induction false} TrimRowExact(alg: uint16, bits: seq<bool>, remaining: nat, base: nat)
    ensures var row := TrimRow(bits, remaining);
            var all := Chosen(alg, bits, base);
            && Chosen(alg, row.0, base) == all[..Least(remaining, |all|)]
            && row.1 == remaining - Least(remaining, |all|)
    decreases |bits|
  {
    if bits != [] {
      var keep := bits[0] && remaining > 0;
      TrimRowExact(alg, bits[1..], if keep then remaining - 1 else remaining, base + 1);
      var row := TrimRow(bits, remaining).0;
      assert row[1..] == TrimRow(bits[1..], if keep then remaining - 1 else remaining).0;
      if bits[0] && remaining == 0 {
        assert Chosen(alg, row, base) == [];
      }
    }
  }

  lemma {:induction false} TrimExact(sels: seq<Selection>, remaining: nat)
    ensures Slots(Trimmed(sels, remaining)) == Slots(sels)[..Least(remaining, |Slots(sels)|)]
    decreases |sels|
  {
    if sels != [] {
      TrimRowExact(sels[0].alg, sels[0].bits, remaining, 0);
      var row := TrimRow(sels[0].bits, remaining);
      TrimExact(sels[1..], row.1);
      var trimmed := Trimmed(sels, remaining);
      assert trimmed[0] == sels[0].(bits := row.0) && trimmed[1..] == Trimmed(sels[1..], row.1);
      hide Chosen, TrimRow;
    }
  }

  lemma {:induction false} NothingTrimmedRow(alg: uint16, bits: seq<bool>, remaining: nat, base: nat)
    requires |Chosen(alg, bits, base)| <= remaining
    ensures TrimRow(bits, remaining).0 == bits
    decreases |bits|
  {
    if bits != [] {
      NothingTrimmedRow(alg, bits[1..], if bits[0] && remaining > 0 then remaining - 1 else remaining, base + 1);
      assert bits == [bits[0]] + bits[1..];
    }
  }

  lemma {:induction false} NothingTrimmed(sels: seq<Selection>, remaining: nat)
    requires |Slots(sels)| <= remaining
    ensures Trimmed(sels, remaining) == sels
    decreases |sels|
  {
    if sels != [] {
      NothingTrimmedRow(sels[0].alg, sels[0].bits, remaining, 0);
      TrimRowExact(sels[0].alg, sels[0].bits, remaining, 0);
      NothingTrimmed(sels[1..], TrimRow(sels[0].bits, remaining).1);
      assert sels == [sels[0]] + sels[1..];
    }
  }

  /** One row, deselected in place. */
  method TrimBits(bits: seq<bool>, remaining: nat) returns (row: seq<bool>, left: nat)
    ensures (row, left) == TrimRow(bits, remaining)
  {
    row, left := bits, remaining;
    ghost var whole := TrimRow(bits, remaining);
    assert bits[0..] == bits && [] + whole.0 == whole.0;
    for i := 0 to |bits|
      invariant |row| == |bits| && row[i..] == bits[i..]
      invariant whole == (row[..i] + TrimRow(bits[i..], left).0, TrimRow(bits[i..], left).1)
    {
      ghost var before, keep := row[..i], bits[i] && left > 0;
      TrimStep(bits, i, left, before);
      assert row[i] == row[i..][0];
      if row[i] {
        if left == 0 {
          row := row[i := false];
        } else {
          left := left - 1;
        }
      }
      assert row[i + 1..] == bits[i..][1..];
      assert row[..i + 1] == before + [keep];
    }
    assert row[..|bits|] + [] == row;
  }

  lemma TrimStep(bits: seq<bool>, i: nat, left: nat, done: seq<bool>)
    requires i < |bits|
    ensures var keep := bits[i] && left > 0;
            var rest := TrimRow(bits[i + 1..], if keep then left - 1 else left);
            && done + TrimRow(bits[i..], left).0 == done + [keep] + rest.0
            && TrimRow(bits[i..], left).1 == rest.1
  {
  }

  method Trim(sels: seq<Selection>, limit: nat) returns (selected: seq<Selection>)
    ensures selected == Trimmed(sels, limit)
  {
    selected := [];
    var remaining := limit;
    assert sels[0..] == sels && [] + Trimmed(sels, limit) == Trimmed(sels, limit);
    for i := 0 to |sels|
      invariant Trimmed(sels, limit) == selected + Trimmed(sels[i..], remaining)
    {
      var row, left := TrimBits(sels[i].bits, remaining);
      assert sels[i..][1..] == sels[i + 1..];
      ghost var rest := Trimmed(sels[i + 1..], left);
      assert selected + ([sels[i].(bits := row)] + rest) == selected + [sels[i].(bits := row)] + rest;
      selected, remaining := selected + [sels[i].(bits := row)], left;
    }
    assert selected + [] == selected;
  }

  /** The selection and the values of one TPM2_PCR_Read response. */
  datatype ReadReply = ReadReply(selected: seq<Selection>, values: seq<Bytes>)

  /** One response names and carries exactly the first eight registers selected, in
    the order the selection names them. */
  method PcrRead(banks: Banks, requested: seq<Selection>) returns (reply: ReadReply)
    requires AllWhole(banks)
    ensures reply == Read(banks, requested)
    ensures var all := Slots(Filtered(banks, requested));
            var n := Least(MAX_DIGEST_LIST, |all|);
            Slots(reply.selected) == all[..n] && reply.values == Values(banks, all[..n])
  {
    var filtered := Filtered(banks, requested);
    var values := Values(banks, Slots(filtered));
    var selected := filtered;
    TrimExact(filtered, MAX_DIGEST_LIST);
    if |values| > MAX_DIGEST_LIST {
      selected := Trim(filtered, MAX_DIGEST_LIST);
    } else {
      NothingTrimmed(filtered, MAX_DIGEST_LIST);
    }
    return ReadReply(selected, Values(banks, Slots(selected)));
  }

  function Read(banks: Banks, requested: seq<Selection>): ReadReply
    requires AllWhole(banks)
  {
    var selected := Trimmed(Filtered(banks, requested), MAX_DIGEST_LIST);
    ReadReply(selected, Values(banks, Slots(selected)))
  }

  // ---- Reading the rest ----

  function RowWithout(bits: seq<bool>, got: seq<bool>): seq<bool> {
    seq(|bits|, i requires 0 <= i < |bits| => bits[i] && !(i < |got| && got[i]))
  }

  /** What was asked for less what was answered, row by row. */
  function Remainder(requested: seq<Selection>, got: seq<Selection>): seq<Selection>
    requires |got| == |requested|
  {
    seq(|requested|, i requires 0 <= i < |requested| =>
      requested[i].(bits := RowWithout(requested[i].bits, got[i].bits)))
  }

  lemma WithoutStep(bits: seq<bool>, keep: bool, rest: seq<bool>)
    requires bits != [] && |rest| == |bits| - 1
    ensures RowWithout(bits, [keep] + rest) == [bits[0] && !keep] + RowWithout(bits[1..], rest)
  {
  }

  lemma ChosenStep(alg: uint16, bit: bool, rest: seq<bool>, base: nat)
    ensures Chosen(alg, [bit] + rest, base) == (if bit then [Slot(alg, base)] else []) + Chosen(alg, rest, base + 1)
  {
  }

  lemma {:induction false} RestOfRow(alg: uint16, bits: seq<bool>, remaining: nat, base: nat)
    ensures var all := Chosen(alg, bits, base);
            Chosen(alg, RowWithout(bits, TrimRow(bits, remaining).0), base) == all[Least(remaining, |all|)..]
    decreases |bits|
  {
    if bits != [] {
      var keep := bits[0] && remaining > 0;
      var next := if keep then remaining - 1 else remaining;
      var rest := TrimRow(bits[1..], next).0;
      assert TrimRow(bits, remaining).0 == [keep] + rest;
      RestOfRow(alg, bits[1..], next, base + 1);
      WithoutStep(bits, keep, rest);
      ChosenStep(alg, bits[0] && !keep, RowWithout(bits[1..], rest), base);
      hide RowWithout, TrimRow;
    }
  }

  lemma {:induction false} RestExact(sels: seq<Selection>, remaining: nat)
    ensures |Trimmed(sels, remaining)| == |sels|
    ensures Slots(Remainder(sels, Trimmed(sels, remaining))) == Slots(sels)[Least(remaining, |Slots(sels)|)..]
    decreases |sels|
  {
    if sels != [] {
      var row := TrimRow(sels[0].bits, remaining);
      TrimRowExact(sels[0].alg, sels[0].bits, remaining, 0);
      RestOfRow(sels[0].alg, sels[0].bits, remaining, 0);
      RestExact(sels[1..], row.1);
      var trimmed := Trimmed(sels, remaining);
      var rest := Remainder(sels, trimmed);
      assert trimmed[1..] == Trimmed(sels[1..], row.1);
      assert rest[1..] == Remainder(sels[1..], trimmed[1..]);
      hide Chosen, TrimRow, RowWithout;
    }
  }

  /** What filtering keeps of the remainder is the remainder of what it kept. */
  lemma FilterCommutes(banks: Banks, requested: seq<Selection>, got: seq<Selection>)
    requires AllWhole(banks) && |got| == |requested|
    ensures forall i :: 0 <= i < |requested| ==>
      FilteredRow(banks, Remainder(requested, got)[i])
      == Remainder(Filtered(banks, requested), got)[i]
  {
  }

  lemma RemainderReads(banks: Banks, requested: seq<Selection>)
    requires AllWhole(banks)
    ensures var all := Slots(Filtered(banks, requested));
            var got := Read(banks, requested).selected;
            && |got| == |requested|
            && Slots(Filtered(banks, Remainder(requested, got))) == all[Least(MAX_DIGEST_LIST, |all|)..]
  {
    var filtered := Filtered(banks, requested);
    RestExact(filtered, MAX_DIGEST_LIST);
    var got := Trimmed(filtered, MAX_DIGEST_LIST);
    FilterCommutes(banks, requested, got);
    assert Filtered(banks, Remainder(requested, got)) == Remainder(filtered, got);
  }

  /** Reading, then asking again for what was not answered, until nothing is. */
  function Drained(banks: Banks, requested: seq<Selection>): seq<Bytes>
    requires AllWhole(banks)
    decreases |Slots(Filtered(banks, requested))|
  {
    var reply := Read(banks, requested);
    RemainderReads(banks, requested);
    TrimExact(Filtered(banks, requested), MAX_DIGEST_LIST);
    if reply.values == [] then [] else reply.values + Drained(banks, Remainder(requested, reply.selected))
  }

  lemma ValuesSplit(banks: Banks, slots: seq<Slot>, n: nat)
    requires AllWhole(banks) && n <= |slots|
    ensures Values(banks, slots) == Values(banks, slots[..n]) + Values(banks, slots[n..])
  {
  }

  /** Asking again for the remainder ends, and delivers every selected register once, in order. */
  lemma {:induction false} DrainedIsEverything(banks: Banks, requested: seq<Selection>)
    requires AllWhole(banks)
    ensures Drained(banks, requested) == Values(banks, Slots(Filtered(banks, requested)))
    decreases |Slots(Filtered(banks, requested))|
  {
    var all := Slots(Filtered(banks, requested));
    var n := Least(MAX_DIGEST_LIST, |all|);
    var reply := Read(banks, requested);
    RemainderReads(banks, requested);
    TrimExact(Filtered(banks, requested), MAX_DIGEST_LIST);
    if reply.values != [] {
      DrainedIsEverything(banks, Remainder(requested, reply.selected));
      ValuesSplit(banks, all, n);
    }
  }

  // ---- Allocating ----

  datatype Entry = Entry(alg: uint16, bits: seq<bool>)

  function AllocationBits(sel: Selection): seq<bool> {
    seq(IMPLEMENTATION_PCR, i requires 0 <= i < IMPLEMENTATION_PCR => i < |sel.bits| && sel.bits[i])
  }

  /** A register is selected that the TPM does not have. */
  predicate BeyondLast(sel: Selection) {
    exists i :: IMPLEMENTATION_PCR <= i < |sel.bits| && sel.bits[i]
  }

  predicate AnyBit(bits: seq<bool>) {
    exists i :: 0 <= i < |bits| && bits[i]
  }

  function Without(allocation: seq<Entry>, alg: uint16): seq<Entry> {
    if allocation == [] then []
    else (if allocation[0].alg == alg then [] else [allocation[0]]) + Without(allocation[1..], alg)
  }

  function AfterSelection(allocation: seq<Entry>, sel: Selection): seq<Entry> {
    var bits := AllocationBits(sel);
    Without(allocation, sel.alg) + if AnyBit(bits) then [Entry(sel.alg, bits)] else []
  }

  function AfterSelections(implemented: set<uint16>, allocation: seq<Entry>, sels: seq<Selection>): Result<seq<Entry>>
    decreases |sels|
  {
    if sels == [] then Ok(allocation)
    else if sels[0].alg !in implemented then Err(TpmRc(RC_HASH, Nowhere).WithParameter(1))
    else if BeyondLast(sels[0]) then Err(TpmRc(RC_VALUE, Nowhere).WithParameter(1))
    else AfterSelections(implemented, AfterSelection(allocation, sels[0]), sels[1..])
  }

  predicate Somewhere(allocation: seq<Entry>, index: nat) {
    exists i :: 0 <= i < |allocation| && index < |allocation[i].bits| && allocation[i].bits[index]
  }

  function Allocated(implemented: set<uint16>, allocation: seq<Entry>, sels: seq<Selection>): Result<seq<Entry>> {
    var after :- AfterSelections(implemented, allocation, sels);
    if after == [] then Err(TpmRc(RC_VALUE, Nowhere).WithParameter(1))
    else if !Somewhere(after, DRTM_PCR) || !Somewhere(after, HCRTM_PCR) then Err(TpmRc(RC_PCR, Nowhere).WithParameter(1))
    else if |after| > HASH_COUNT then Err(TpmRc(RC_SIZE, Nowhere).WithParameter(1))
    else Ok(after)
  }

  method PcrAllocate(implemented: set<uint16>, current: seq<Entry>, sels: seq<Selection>) returns (r: Result<seq<Entry>>)
    ensures r == Allocated(implemented, current, sels)
  {
    var allocation := current;
    for i := 0 to |sels|
      invariant AfterSelections(implemented, current, sels) == AfterSelections(implemented, allocation, sels[i..])
    {
      assert sels[i..][1..] == sels[i + 1..];
      if sels[i].alg !in implemented {
        return Err(TpmRc(RC_HASH, Nowhere).WithParameter(1));
      }
      if BeyondLast(sels[i]) {
        return Err(TpmRc(RC_VALUE, Nowhere).WithParameter(1));
      }
      var bits := AllocationBits(sels[i]);
      assert Without(allocation, sels[i].alg) + [] == Without(allocation, sels[i].alg);
      ghost var next := AfterSelection(allocation, sels[i]);
      allocation := Without(allocation, sels[i].alg);
      if AnyBit(bits) {
        allocation := allocation + [Entry(sels[i].alg, bits)];
      }
      assert allocation == next;
    }
    if allocation == [] {
      return Err(TpmRc(RC_VALUE, Nowhere).WithParameter(1));
    }
    if !Somewhere(allocation, DRTM_PCR) || !Somewhere(allocation, HCRTM_PCR) {
      return Err(TpmRc(RC_PCR, Nowhere).WithParameter(1));
    }
    if |allocation| > HASH_COUNT {
      return Err(TpmRc(RC_SIZE, Nowhere).WithParameter(1));
    }
    return Ok(allocation);
  }

  // ---- The allocation as a map ----

  predicate Distinct(allocation: seq<Entry>) {
    forall i, j :: 0 <= i < j < |allocation| ==> allocation[i].alg != allocation[j].alg
  }

  /** The registers a bank is to have, if it is to have any. */
  function BitsOf(allocation: seq<Entry>, alg: uint16): Option<seq<bool>> {
    if allocation == [] then None
    else if allocation[0].alg == alg then Some(allocation[0].bits)
    else BitsOf(allocation[1..], alg)
  }

  /** The last selection of a bank, if it is listed. */
  function LastOf(sels: seq<Selection>, alg: uint16): Option<seq<bool>> {
    if sels == [] then None
    else if sels[|sels| - 1].alg == alg then Some(AllocationBits(sels[|sels| - 1]))
    else LastOf(sels[..|sels| - 1], alg)
  }

  lemma {:induction false} WithoutBits(allocation: seq<Entry>, removed: uint16, alg: uint16)
    ensures BitsOf(Without(allocation, removed), alg) == if alg == removed then None else BitsOf(allocation, alg)
    ensures forall i :: 0 <= i < |Without(allocation, removed)| ==> Without(allocation, removed)[i].alg != removed
    decreases |allocation|
  {
    if allocation != [] {
      WithoutBits(allocation[1..], removed, alg);
      var rest := Without(allocation[1..], removed);
      if allocation[0].alg != removed {
        assert ([allocation[0]] + rest)[1..] == rest;
      } else {
        assert [] + rest == rest;
      }
    }
  }

  lemma {:induction false} AppendedBits(allocation: seq<Entry>, e: Entry, alg: uint16)
    ensures BitsOf(allocation + [e], alg)
         == if BitsOf(allocation, alg).Some? then BitsOf(allocation, alg)
            else if e.alg == alg then Some(e.bits) else None
    decreases |allocation|
  {
    if allocation != [] {
      assert (allocation + [e])[1..] == allocation[1..] + [e];
      AppendedBits(allocation[1..], e, alg);
    }
  }

  lemma {:induction false} WithoutDistinct(allocation: seq<Entry>, removed: uint16)
    requires Distinct(allocation)
    ensures Distinct(Without(allocation, removed))
    ensures forall i :: 0 <= i < |Without(allocation, removed)| ==>
      exists j :: 0 <= j < |allocation| && allocation[j] == Without(allocation, removed)[i]
    decreases |allocation|
  {
    if allocation != [] {
      var rest, all := Without(allocation[1..], removed), Without(allocation, removed);
      WithoutDistinct(allocation[1..], removed);
      var n := |all| - |rest|;
      forall i | 0 <= i < |all| ensures exists j :: 0 <= j < |allocation| && allocation[j] == all[i] {
        if i >= n {
          assert all[i] == rest[i - n];
          var j :| 0 <= j < |allocation[1..]| && allocation[1..][j] == rest[i - n];
          assert allocation[j + 1] == all[i];
        } else {
          assert allocation[0] == all[i];
        }
      }
      forall i, j | 0 <= i < j < |all| ensures all[i].alg != all[j].alg {
        assert all[j] == rest[j - n];
        if i >= n {
          assert all[i] == rest[i - n];
        } else {
          var k :| 0 <= k < |allocation[1..]| && allocation[1..][k] == rest[j - n];
          assert allocation[k + 1] == all[j];
        }
      }
    }
  }

  /** A bank with a bit set is allocated with just those registers; one with none is not. */
  function Wanted(bits: seq<bool>): Option<seq<bool>> {
    if AnyBit(bits) then Some(bits) else None
  }

  lemma SelectionOverrides(allocation: seq<Entry>, sel: Selection, alg: uint16)
    requires Distinct(allocation)
    ensures Distinct(AfterSelection(allocation, sel))
    ensures BitsOf(AfterSelection(allocation, sel), alg)
         == if alg == sel.alg then Wanted(AllocationBits(sel)) else BitsOf(allocation, alg)
  {
    var bits, rest := AllocationBits(sel), Without(allocation, sel.alg);
    WithoutBits(allocation, sel.alg, alg);
    WithoutDistinct(allocation, sel.alg);
    AppendedBits(rest, Entry(sel.alg, bits), alg);
    assert rest + [] == rest;
    hide AllocationBits, AnyBit;
  }

  lemma LastOfFront(sels: seq<Selection>, alg: uint16)
    requires sels != []
    ensures LastOf(sels, alg)
         == if LastOf(sels[1..], alg).Some? then LastOf(sels[1..], alg)
            else if sels[0].alg == alg then Some(AllocationBits(sels[0])) else None
    decreases |sels|
  {
    hide AllocationBits;
    if |sels| > 1 {
      var front := sels[..|sels| - 1];
      assert sels[1..][|sels| - 2] == sels[|sels| - 1];
      assert sels[1..][..|sels| - 2] == front[1..];
      LastOfFront(front, alg);
    }
  }

  lemma {:induction false} SelectionsOverride(implemented: set<uint16>, allocation: seq<Entry>, sels: seq<Selection>, alg: uint16)
    requires Distinct(allocation) && AfterSelections(implemented, allocation, sels).Ok?
    ensures var after := AfterSelections(implemented, allocation, sels).value;
            && Distinct(after)
            && BitsOf(after, alg)
               == match LastOf(sels, alg) case Some(bits) => Wanted(bits) case None => BitsOf(allocation, alg)
    decreases |sels|
  {
    if sels != [] {
      SelectionOverrides(allocation, sels[0], alg);
      LastOfFront(sels, alg);
      hide AfterSelection, Distinct, BeyondLast, AllocationBits, AnyBit;
      SelectionsOverride(implemented, AfterSelection(allocation, sels[0]), sels[1..], alg);
    }
  }

  /** The allocation that is accepted is the one in place overridden bank by bank: the
    last selection of a bank wins, one with nothing selected takes it away, a bank not
    listed stays, and each bank appears once. */
  lemma AllocationIsOverride(implemented: set<uint16>, current: seq<Entry>, sels: seq<Selection>, alg: uint16)
    requires Distinct(current) && Allocated(implemented, current, sels).Ok?
    ensures var after := Allocated(implemented, current, sels).value;
            && Distinct(after) && 0 < |after| <= HASH_COUNT
            && Somewhere(after, DRTM_PCR) && Somewhere(after, HCRTM_PCR)
            && BitsOf(after, alg)
               == match LastOf(sels, alg) case Some(bits) => Wanted(bits) case None => BitsOf(current, alg)
  {
    SelectionsOverride(implemented, current, sels, alg);
    hide AfterSelections, Somewhere;
  }
}

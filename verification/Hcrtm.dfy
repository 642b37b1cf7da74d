/** The H-CRTM event sequence: _TPM_Hash_Start, _TPM_Hash_Data and _TPM_Hash_End
  between commands (Part 1 section 31, Part 3 sections 22.9 to 22.11). */
module Hcrtm {
  import opened Prelude
  import opened PcrBanks

  /** A hash in progress, as the octets fed to it. */
  datatype Hasher = Hasher(alg: uint16, data: Bytes)

  /** The hashes: a size for each algorithm a bank may have, and which ones can be computed. */
  datatype Crypto = Crypto(size: uint16 -> nat, supported: uint16 -> bool, digest: (uint16, Bytes) -> Bytes)

  ghost predicate Lawful(c: Crypto) {
    forall alg, data :: c.supported(alg) ==> c.size(alg) > 0 && |c.digest(alg, data)| == c.size(alg)
  }

  datatype Registers = Registers(banks: seq<Bank>, counter: uint32, started: bool, restartCount: uint32, beforeStartup: bool)

  datatype Chip = Chip(registers: Registers, sequence: Option<seq<Hasher>>)

  /** One bank for an algorithm, every register there. */
  ghost predicate Shaped(banks: seq<Bank>) {
    && (forall i :: 0 <= i < |banks| ==> banks[i].Whole())
    && (forall i, j :: 0 <= i < j < |banks| ==> banks[i].alg != banks[j].alg)
  }

  /** The registers a D-RTM event takes to zero. */
  predicate StartsAtOnes(index: nat) {
    17 <= index <= 22
  }

  predicate NoIncrement(index: nat) {
    index == 16 || index == 21 || index == 22 || index == 23
  }

  function Zeros(c: Crypto, alg: uint16): Bytes {
    Filled(0, c.size(alg))
  }

  /** Zeros with a last octet of four. */
  function Four(c: Crypto, alg: uint16): Bytes
    requires c.size(alg) > 0
  {
    Filled(0, c.size(alg) - 1) + [4]
  }

  function Extended(c: Crypto, alg: uint16, value: Bytes, digest: Bytes): Bytes {
    c.digest(alg, value + digest)
  }

  function Wrapping(n: nat): uint32 {
    n % 0x1_0000_0000
  }

  // ---- The three indications ----

  function Begun(c: Crypto, banks: seq<Bank>): seq<Hasher> {
    if banks == [] then []
    else (if c.supported(banks[0].alg) then [Hasher(banks[0].alg, [])] else []) + Begun(c, banks[1..])
  }

  lemma BegunFrom(c: Crypto, banks: seq<Bank>, hashers: seq<Hasher>, i: nat)
    requires i <= |banks|
    ensures i == 0 ==> [] + Begun(c, banks[0..]) == Begun(c, banks)
    ensures i == |banks| ==> hashers + Begun(c, banks[i..]) == hashers
    ensures i < |banks| ==>
      hashers + Begun(c, banks[i..])
      == (if c.supported(banks[i].alg) then hashers + [Hasher(banks[i].alg, [])] else hashers) + Begun(c, banks[i + 1..])
  {
  }

  function Fed(sequence: seq<Hasher>, data: Bytes): seq<Hasher> {
    seq(|sequence|, i requires 0 <= i < |sequence| => sequence[i].(data := sequence[i].data + data))
  }

  function DrtmReset(c: Crypto, bank: Bank): Bank {
    bank.(registers := seq(|bank.registers|, i requires 0 <= i < |bank.registers| =>
      if StartsAtOnes(i) then Zeros(c, bank.alg) else bank.registers[i]))
  }

  /** The bank after one hash is measured into it: PCR 17 after TPM2_Startup, PCR 0,
    from its own starting value, before it. */
  function MeasuredBank(c: Crypto, bank: Bank, digest: Bytes, started: bool): Bank
    requires bank.Whole() && c.size(bank.alg) > 0
  {
    if started then
      if bank.present[DRTM_PCR]
      then bank.(registers := bank.registers[DRTM_PCR := Extended(c, bank.alg, bank.registers[DRTM_PCR], digest)])
      else bank
    else
      var initial := Four(c, bank.alg);
      bank.(registers := bank.registers[HCRTM_PCR :=
        if bank.present[HCRTM_PCR] then Extended(c, bank.alg, initial, digest) else initial])
  }

  function BankOf(banks: seq<Bank>, alg: uint16): (k: int)
    ensures -1 <= k < |banks|
    ensures k >= 0 ==> banks[k].alg == alg
    ensures k == -1 ==> forall i :: 0 <= i < |banks| ==> banks[i].alg != alg
  {
    if banks == [] then -1
    else if banks[0].alg == alg then 0
    else
      var k := BankOf(banks[1..], alg);
      if k == -1 then -1 else k + 1
  }

  /** Hash `i` on are measured into their banks. */
  function MeasuredFrom(c: Crypto, banks: seq<Bank>, sequence: seq<Hasher>, i: nat, started: bool): seq<Bank>
    requires Lawful(c) && Shaped(banks) && i <= |sequence|
    requires forall j :: 0 <= j < |sequence| ==> c.supported(sequence[j].alg)
    decreases |sequence| - i
  {
    if i == |sequence| then banks
    else MeasuredFrom(c, MeasuredOne(c, banks, sequence[i], started), sequence, i + 1, started)
  }

  function MeasuredOne(c: Crypto, banks: seq<Bank>, h: Hasher, started: bool): (r: seq<Bank>)
    requires Lawful(c) && Shaped(banks) && c.supported(h.alg)
    ensures Shaped(r) && |r| == |banks|
  {
    assert |c.digest(h.alg, h.data)| == c.size(h.alg) && c.size(h.alg) > 0;
    var k := BankOf(banks, h.alg);
    if k == -1 then banks else banks[k := MeasuredBank(c, banks[k], c.digest(h.alg, h.data), started)]
  }

  function AllReset(c: Crypto, banks: seq<Bank>): seq<Bank> {
    seq(|banks|, i requires 0 <= i < |banks| => DrtmReset(c, banks[i]))
  }

  /** The device's side of the indications. */
  class Device {
    var registers: Registers
    var sequence: Option<seq<Hasher>>

    function Value(): Chip
      reads this
    {
      Chip(registers, sequence)
    }

    constructor (registers: Registers)
      ensures Value() == Chip(registers, None)
    {
      this.registers, sequence := registers, None;
    }

    method HashStart(c: Crypto)
      modifies this
      ensures Value() == old(Value()).(sequence := Some(Begun(c, old(registers).banks)))
    {
      var hashers := BeginHashers(c, registers.banks);
      sequence := Some(hashers);
    }

    method BeginHashers(c: Crypto, banks: seq<Bank>) returns (hashers: seq<Hasher>)
      ensures hashers == Begun(c, banks)
    {
      hashers := [];
      BegunFrom(c, banks, [], 0);
      for i := 0 to |banks|
        invariant hashers + Begun(c, banks[i..]) == Begun(c, banks)
      {
        hide Begun;
        BegunFrom(c, banks, hashers, i);
        if c.supported(banks[i].alg) {
          hashers := hashers + [Hasher(banks[i].alg, [])];
        }
      }
      BegunFrom(c, banks, hashers, |banks|);
    }

    method HashData(data: Bytes)
      modifies this
      ensures Value() == match old(sequence)
              case None => old(Value())
              case Some(hashers) => old(Value()).(sequence := Some(Fed(hashers, data)))
    {
      match sequence {
        case None =>
        case Some(hashers) =>
          var fed := hashers;
          for i := 0 to |hashers|
            invariant |fed| == |hashers|
            invariant forall j :: 0 <= j < i ==> fed[j] == hashers[j].(data := hashers[j].data + data)
            invariant forall j :: i <= j < |fed| ==> fed[j] == hashers[j]
          {
            fed := fed[i := fed[i].(data := fed[i].data + data)];
          }
          assert fed == Fed(hashers, data);
          sequence := Some(fed);
      }
    }

    method HashEnd(c: Crypto)
      requires Lawful(c) && Shaped(registers.banks)
      requires sequence.Some? ==> forall j :: 0 <= j < |sequence.value| ==> c.supported(sequence.value[j].alg)
      modifies this
      ensures Value() == Ended(c, old(Value()))
    {
      hide Lawful, Shaped, AllReset, MeasuredFrom, AnyMeasured, BankOf;
      var taken := sequence;
      sequence := None;
      if taken.None? {
        return;
      }
      var before := registers.counter;
      if registers.started {
        ResetShaped(c, registers.banks);
        var banks := Measure(c, AllReset(c, registers.banks), taken.value, true);
        registers := registers.(
          banks := banks,
          restartCount := Wrapping(registers.restartCount + 1),
          counter := Wrapping(before as int + (if NoIncrement(DRTM_PCR) then 0 else 1)));
      } else {
        var banks := Measure(c, registers.banks, taken.value, false);
        registers := registers.(
          banks := banks,
          beforeStartup := registers.beforeStartup || AnyMeasured(registers.banks, taken.value, 0));
      }
    }

    method Measure(c: Crypto, first: seq<Bank>, hashers: seq<Hasher>, started: bool) returns (banks: seq<Bank>)
      requires Lawful(c) && Shaped(first)
      requires forall j :: 0 <= j < |hashers| ==> c.supported(hashers[j].alg)
      ensures banks == MeasuredFrom(c, first, hashers, 0, started)
    {
      hide Lawful, Shaped;
      banks := first;
      for i := 0 to |hashers|
        invariant Shaped(banks)
        invariant MeasuredFrom(c, first, hashers, 0, started) == MeasuredFrom(c, banks, hashers, i, started)
      {
        banks := MeasuredOne(c, banks, hashers[i], started);
      }
    }
  }

  /** Some hash from `i` on has a bank to go to. */
  predicate AnyMeasured(banks: seq<Bank>, hashers: seq<Hasher>, i: nat)
    requires i <= |hashers|
  {
    exists j :: i <= j < |hashers| && BankOf(banks, hashers[j].alg) != -1
  }

  function Ended(c: Crypto, s: Chip): Chip
    requires Lawful(c) && Shaped(s.registers.banks)
    requires s.sequence.Some? ==> forall j :: 0 <= j < |s.sequence.value| ==> c.supported(s.sequence.value[j].alg)
  {
    if s.sequence.None? then s
    else
      var r, hashers := s.registers, s.sequence.value;
      Chip(
        if r.started then
          r.(banks := MeasuredFrom(c, AllReset(c, r.banks), hashers, 0, true),
             restartCount := Wrapping(r.restartCount + 1),
             counter := Wrapping(r.counter + (if NoIncrement(DRTM_PCR) then 0 else 1)))
        else
          r.(banks := MeasuredFrom(c, r.banks, hashers, 0, false),
             beforeStartup := r.beforeStartup || AnyMeasured(r.banks, hashers, 0)),
        None)
  }

  // ---- Any interleaving ----

  /** A powered command or a power cycle leaves whatever registers it leaves. */
  datatype Input = Start | Data(data: Bytes) | End | Command(powered: bool, left: Registers) | PowerOn(left: Registers)

  ghost predicate Sensible(c: Crypto, input: Input) {
    match input
    case Command(_, left) => Shaped(left.banks)
    case PowerOn(left) => Shaped(left.banks)
    case _ => true
  }

  /** Every hash in progress can be computed. */
  ghost predicate Sound(c: Crypto, s: Chip) {
    && Shaped(s.registers.banks)
    && (s.sequence.Some? ==> forall j :: 0 <= j < |s.sequence.value| ==> c.supported(s.sequence.value[j].alg))
  }

  function After(c: Crypto, s: Chip, input: Input): Chip
    requires Lawful(c) && Sound(c, s)
  {
    match input
    case Start => s.(sequence := Some(Begun(c, s.registers.banks)))
    case Data(data) => if s.sequence.None? then s else s.(sequence := Some(Fed(s.sequence.value, data)))
    case End => Ended(c, s)
    case Command(powered, left) => if powered then Chip(left, None) else s
    case PowerOn(left) => Chip(left, None)
  }

  /** The data since the latest start, if no powered command, power cycle or end came after it. */
  function Pending(inputs: seq<Input>): Option<Bytes> {
    if inputs == [] then None
    else
      var before := Pending(inputs[..|inputs| - 1]);
      match inputs[|inputs| - 1]
      case Start => Some([])
      case Data(data) => if before.Some? then Some(before.value + data) else None
      case Command(powered, _) => if powered then None else before
      case _ => None
  }

  /** One hash for each bank that has one, all fed the same. */
  ghost predicate Holds(c: Crypto, banks: seq<Bank>, sequence: Option<seq<Hasher>>, pending: Option<Bytes>) {
    match pending
    case None => sequence.None?
    case Some(data) => sequence.Some? && sequence.value == Fed(Begun(c, banks), data)
  }

  lemma {:induction false} BegunAt(c: Crypto, banks: seq<Bank>, j: nat) returns (k: nat)
    requires j < |Begun(c, banks)|
    ensures Begun(c, banks)[j].data == [] && c.supported(Begun(c, banks)[j].alg)
    ensures k < |banks| && banks[k].alg == Begun(c, banks)[j].alg
    decreases |banks|
  {
    var rest := Begun(c, banks[1..]);
    if c.supported(banks[0].alg) && j == 0 {
      k := 0;
    } else {
      k := BegunAt(c, banks[1..], if c.supported(banks[0].alg) then j - 1 else j);
      k := k + 1;
    }
  }

  lemma {:induction false} BegunFor(c: Crypto, banks: seq<Bank>, k: nat) returns (j: nat)
    requires k < |banks| && c.supported(banks[k].alg)
    ensures j < |Begun(c, banks)| && Begun(c, banks)[j].alg == banks[k].alg
    decreases |banks|
  {
    if k == 0 {
      j := 0;
    } else {
      j := BegunFor(c, banks[1..], k - 1);
      j := if c.supported(banks[0].alg) then j + 1 else j;
    }
  }

  lemma BegunSupported(c: Crypto, banks: seq<Bank>)
    ensures forall j :: 0 <= j < |Begun(c, banks)| ==>
      Begun(c, banks)[j].data == [] && c.supported(Begun(c, banks)[j].alg)
  {
  }

  lemma {:induction false} BegunDistinct(c: Crypto, banks: seq<Bank>, i: nat, j: nat)
    requires Shaped(banks) && i < j < |Begun(c, banks)|
    ensures Begun(c, banks)[i].alg != Begun(c, banks)[j].alg
    decreases |banks|
  {
    assert Shaped(banks[1..]);
    if !c.supported(banks[0].alg) {
      BegunDistinct(c, banks[1..], i, j);
    } else if i > 0 {
      BegunDistinct(c, banks[1..], i - 1, j - 1);
    } else {
      var k := BegunAt(c, banks[1..], j - 1);
    }
  }

  /** Fed twice is fed once. */
  lemma FedAgain(hashers: seq<Hasher>, a: Bytes, b: Bytes)
    ensures Fed(Fed(hashers, a), b) == Fed(hashers, a + b)
    ensures (forall j :: 0 <= j < |hashers| ==> hashers[j].data == []) ==> Fed(hashers, []) == hashers
  {
    assert forall j :: 0 <= j < |hashers| ==> hashers[j].data + a + b == hashers[j].data + (a + b);
    if forall j :: 0 <= j < |hashers| ==> hashers[j].data == [] {
      assert forall j :: 0 <= j < |hashers| ==> Fed(hashers, [])[j] == hashers[j];
    }
  }

  lemma StepHolds(c: Crypto, s: Chip, inputs: seq<Input>, input: Input)
    requires Lawful(c) && Sound(c, s) && Sensible(c, input)
    requires Holds(c, s.registers.banks, s.sequence, Pending(inputs))
    ensures Sound(c, After(c, s, input))
    ensures Holds(c, After(c, s, input).registers.banks, After(c, s, input).sequence, Pending(inputs + [input]))
  {
    assert (inputs + [input])[..|inputs|] == inputs;
    BegunSupported(c, s.registers.banks);
    match input {
      case Start =>
        FedAgain(Begun(c, s.registers.banks), [], []);
      case Data(data) =>
        if Pending(inputs).Some? {
          FedAgain(Begun(c, s.registers.banks), Pending(inputs).value, data);
        }
      case End =>
        EndedShaped(c, s);
      case _ =>
    }
  }

  lemma EndedShaped(c: Crypto, s: Chip)
    requires Lawful(c) && Sound(c, s)
    ensures Sound(c, Ended(c, s))
  {
    if s.sequence.Some? {
      var banks := if s.registers.started then AllReset(c, s.registers.banks) else s.registers.banks;
      MeasuredShaped(c, banks, s.sequence.value, 0, s.registers.started);
    }
  }

  lemma {:induction false} MeasuredShaped(c: Crypto, banks: seq<Bank>, sequence: seq<Hasher>, i: nat, started: bool)
    requires Lawful(c) && Shaped(banks) && i <= |sequence|
    requires forall j :: 0 <= j < |sequence| ==> c.supported(sequence[j].alg)
    ensures Shaped(MeasuredFrom(c, banks, sequence, i, started))
    decreases |sequence| - i
  {
    if i < |sequence| {
      MeasuredShaped(c, MeasuredOne(c, banks, sequence[i], started), sequence, i + 1, started);
    }
  }

  // ---- What an end does to each bank ----

  /** One hash is measured into the bank of its algorithm and leaves the others. */
  lemma OneMeasured(c: Crypto, banks: seq<Bank>, h: Hasher, started: bool, k: nat)
    requires Lawful(c) && Shaped(banks) && c.supported(h.alg) && k < |banks|
    ensures var next := MeasuredOne(c, banks, h, started);
            && next[k].alg == banks[k].alg
            && (banks[k].alg != h.alg ==> next[k] == banks[k])
            && (banks[k].alg == h.alg ==>
                  c.size(h.alg) > 0 && next[k] == MeasuredBank(c, banks[k], c.digest(h.alg, h.data), started))
  {
    assert |c.digest(h.alg, h.data)| == c.size(h.alg) && c.size(h.alg) > 0;
  }

  lemma {:induction false} MeasuredLeaves(c: Crypto, banks: seq<Bank>, sequence: seq<Hasher>, i: nat, started: bool, k: nat)
    requires Lawful(c) && Shaped(banks) && i <= |sequence| && k < |banks|
    requires forall j :: 0 <= j < |sequence| ==> c.supported(sequence[j].alg)
    requires forall j :: i <= j < |sequence| ==> sequence[j].alg != banks[k].alg
    ensures |MeasuredFrom(c, banks, sequence, i, started)| == |banks|
    ensures MeasuredFrom(c, banks, sequence, i, started)[k] == banks[k]
    decreases |sequence| - i
  {
    hide Lawful, Shaped, MeasuredOne, MeasuredBank;
    if i < |sequence| {
      OneMeasured(c, banks, sequence[i], started, k);
      MeasuredLeaves(c, MeasuredOne(c, banks, sequence[i], started), sequence, i + 1, started, k);
    }
  }

  /** Each bank is measured once, by the hash of its own algorithm. */
  lemma {:induction false} MeasuredOnce(c: Crypto, banks: seq<Bank>, sequence: seq<Hasher>, i: nat, started: bool, k: nat, j: nat)
    requires Lawful(c) && Shaped(banks) && i <= j < |sequence| && k < |banks|
    requires forall m :: 0 <= m < |sequence| ==> c.supported(sequence[m].alg)
    requires forall m, n :: 0 <= m < n < |sequence| ==> sequence[m].alg != sequence[n].alg
    requires sequence[j].alg == banks[k].alg
    ensures c.size(banks[k].alg) > 0
    ensures |MeasuredFrom(c, banks, sequence, i, started)| == |banks|
    ensures MeasuredFrom(c, banks, sequence, i, started)[k]
         == MeasuredBank(c, banks[k], c.digest(banks[k].alg, sequence[j].data), started)
    decreases |sequence| - i
  {
    hide Lawful, Shaped, MeasuredOne, MeasuredBank;
    var next := MeasuredOne(c, banks, sequence[i], started);
    OneMeasured(c, banks, sequence[i], started, k);
    if i == j {
      MeasuredLeaves(c, next, sequence, i + 1, started, k);
    } else {
      MeasuredOnce(c, next, sequence, i + 1, started, k, j);
    }
  }

  /** The bank an end leaves, given the data of the whole sequence. */
  function EndOf(c: Crypto, bank: Bank, data: Bytes, started: bool): Bank
    requires bank.Whole()
    requires c.supported(bank.alg) ==> c.size(bank.alg) > 0
  {
    var ready := if started then DrtmReset(c, bank) else bank;
    if c.supported(bank.alg) then MeasuredBank(c, ready, c.digest(bank.alg, data), started) else ready
  }

  lemma ResetShaped(c: Crypto, banks: seq<Bank>)
    requires Shaped(banks)
    ensures Shaped(AllReset(c, banks))
    ensures forall k :: 0 <= k < |banks| ==> AllReset(c, banks)[k].alg == banks[k].alg
  {
  }

  lemma FedDistinct(c: Crypto, banks: seq<Bank>, data: Bytes)
    requires Shaped(banks)
    ensures var fed := Fed(Begun(c, banks), data);
            && (forall j :: 0 <= j < |fed| ==> c.supported(fed[j].alg) && fed[j].data == data)
            && forall i, j :: 0 <= i < j < |fed| ==> fed[i].alg != fed[j].alg
  {
    var begun, fed := Begun(c, banks), Fed(Begun(c, banks), data);
    BegunSupported(c, banks);
    assert [] + data == data;
    forall i, j | 0 <= i < j < |fed| ensures fed[i].alg != fed[j].alg {
      BegunDistinct(c, banks, i, j);
    }
  }

  lemma BankEnds(c: Crypto, s: Chip, data: Bytes, k: nat)
    requires Lawful(c) && Sound(c, s) && k < |s.registers.banks|
    requires s.sequence == Some(Fed(Begun(c, s.registers.banks), data))
    ensures c.supported(s.registers.banks[k].alg) ==> c.size(s.registers.banks[k].alg) > 0
    ensures |Ended(c, s).registers.banks| == |s.registers.banks|
    ensures Ended(c, s).registers.banks[k] == EndOf(c, s.registers.banks[k], data, s.registers.started)
  {
    hide Begun, MeasuredFrom, MeasuredBank, DrtmReset, Sound;
    var banks, started := s.registers.banks, s.registers.started;
    assert Shaped(banks) by { SoundShaped(c, s); }
    var ready := if started then AllReset(c, banks) else banks;
    ResetShaped(c, banks);
    FedDistinct(c, banks, data);
    var fed := s.sequence.value;
    if c.supported(banks[k].alg) {
      assert |c.digest(banks[k].alg, [])| == c.size(banks[k].alg);
      var j := BegunFor(c, banks, k);
      assert fed[j].alg == banks[k].alg;
      MeasuredOnce(c, ready, fed, 0, started, k, j);
    } else {
      MeasuredLeaves(c, ready, fed, 0, started, k);
    }
  }

  lemma SoundShaped(c: Crypto, s: Chip)
    requires Sound(c, s)
    ensures Shaped(s.registers.banks)
  {
  }

  function AfterAll(c: Crypto, s: Chip, inputs: seq<Input>): (t: Chip)
    requires Lawful(c) && Sound(c, s) && s.sequence.None?
    requires forall i :: 0 <= i < |inputs| ==> Sensible(c, inputs[i])
    ensures Sound(c, t) && Holds(c, t.registers.banks, t.sequence, Pending(inputs))
    decreases |inputs|
  {
    if inputs == [] then s
    else
      var front := inputs[..|inputs| - 1];
      var before := AfterAll(c, s, front);
      StepHolds(c, before, front, inputs[|inputs| - 1]);
      assert front + [inputs[|inputs| - 1]] == inputs;
      After(c, before, inputs[|inputs| - 1])
  }

  /** Whatever came before, an end measures the digest of all data since the latest
    start if no command came between, and changes nothing otherwise. Before
    TPM2_Startup it goes to PCR 0, from the value 4, with the update counter
    untouched; after it to PCR 17, once the D-RTM registers are zero, and the counter
    moves by one however many banks there are. */
  lemma EndMeasuresPending(c: Crypto, s: Chip, inputs: seq<Input>)
    requires Lawful(c) && Sound(c, s) && s.sequence.None?
    requires forall i :: 0 <= i < |inputs| ==> Sensible(c, inputs[i])
    ensures var before := AfterAll(c, s, inputs);
            var t := Ended(c, before);
            && t.sequence.None?
            && (Pending(inputs).None? ==> t == before)
            && (Pending(inputs).Some? ==>
                 && |t.registers.banks| == |before.registers.banks|
                 && t.registers.started == before.registers.started
                 && t.registers.counter == (if before.registers.started then Wrapping(before.registers.counter + 1) else before.registers.counter)
                 && t.registers.restartCount == (if before.registers.started then Wrapping(before.registers.restartCount + 1) else before.registers.restartCount))
    ensures Pending(inputs).Some? ==>
      forall k :: 0 <= k < |AfterAll(c, s, inputs).registers.banks| ==>
        Measures(c, AfterAll(c, s, inputs).registers.banks[k], Ended(c, AfterAll(c, s, inputs)).registers.banks[k],
                 Pending(inputs).value, AfterAll(c, s, inputs).registers.started)
  {
    var before := AfterAll(c, s, inputs);
    hide AfterAll;
    if Pending(inputs).Some? {
      var data := Pending(inputs).value;
      forall k | 0 <= k < |before.registers.banks|
        ensures |Ended(c, before).registers.banks| == |before.registers.banks|
        ensures Measures(c, before.registers.banks[k], Ended(c, before).registers.banks[k], data, before.registers.started)
      {
        BankEnds(c, before, data, k);
        EndMeasures(c, before.registers.banks[k], data, before.registers.started);
      }
      EndedLength(c, before);
    }
  }

  lemma EndedLength(c: Crypto, s: Chip)
    requires Lawful(c) && Sound(c, s)
    ensures |Ended(c, s).registers.banks| == |s.registers.banks|
  {
    if s.sequence.Some? {
      var banks := if s.registers.started then AllReset(c, s.registers.banks) else s.registers.banks;
      MeasuredLength(c, banks, s.sequence.value, 0, s.registers.started);
    }
  }

  lemma {:induction false} MeasuredLength(c: Crypto, banks: seq<Bank>, sequence: seq<Hasher>, i: nat, started: bool)
    requires Lawful(c) && Shaped(banks) && i <= |sequence|
    requires forall j :: 0 <= j < |sequence| ==> c.supported(sequence[j].alg)
    ensures |MeasuredFrom(c, banks, sequence, i, started)| == |banks|
    decreases |sequence| - i
  {
    if i < |sequence| {
      MeasuredLength(c, MeasuredOne(c, banks, sequence[i], started), sequence, i + 1, started);
    }
  }

  /** `after` is `bank` with `data` measured, register by register. */
  ghost predicate Measures(c: Crypto, bank: Bank, after: Bank, data: Bytes, started: bool) {
    && after.alg == bank.alg && after.present == bank.present
    && |bank.present| == IMPLEMENTATION_PCR == |bank.registers|
    && |after.registers| == |bank.registers|
    && forall i :: 0 <= i < |bank.registers| ==>
         after.registers[i]
         == if started then
              if i == DRTM_PCR && c.supported(bank.alg) && bank.present[i]
              then c.digest(bank.alg, Zeros(c, bank.alg) + c.digest(bank.alg, data))
              else if StartsAtOnes(i) then Zeros(c, bank.alg) else bank.registers[i]
            else
              if i == HCRTM_PCR && c.supported(bank.alg) && c.size(bank.alg) > 0
              then if bank.present[i] then c.digest(bank.alg, Four(c, bank.alg) + c.digest(bank.alg, data))
                   else Four(c, bank.alg)
              else bank.registers[i]
  }

  lemma EndMeasures(c: Crypto, bank: Bank, data: Bytes, started: bool)
    requires bank.Whole()
    requires c.supported(bank.alg) ==> c.size(bank.alg) > 0
    ensures Measures(c, bank, EndOf(c, bank, data, started), data, started)
  {
  }
}

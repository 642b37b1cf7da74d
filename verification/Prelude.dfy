/** Octets, optional values, results and response codes shared by every module. */
module Prelude {

  type byte = i: int | 0 <= i < 256
  type Bytes = seq<byte>
  type uint16 = i: int | 0 <= i < 0x1_0000
  type uint32 = i: int | 0 <= i < 0x1_0000_0000
  type uint64 = i: int | 0 <= i < 0x1_0000_0000_0000_0000

  const U32_MAX := 0xFFFF_FFFF
  const U64_MAX := 0xFFFF_FFFF_FFFF_FFFF

  datatype Option<+T> = None | Some(value: T)

  /** What a format-one response code points at, Part 2 section 6.6.2. */
  datatype Position = Nowhere | Handle(n: nat) | Parameter(n: nat) | Session(n: nat)

  datatype TpmRc = TpmRc(code: nat, at: Position) {
    /** Only an unqualified format-one code takes a position, and only one that fits. */
    function WithHandle(n: nat): TpmRc {
      if at == Nowhere && 0x080 <= code <= 0x0BF && 1 <= n <= 7 then TpmRc(code, Handle(n)) else this
    }

    function WithParameter(n: nat): TpmRc {
      if at == Nowhere && 0x080 <= code <= 0x0BF && 1 <= n <= 15 then TpmRc(code, Parameter(n)) else this
    }

    function WithSession(n: nat): TpmRc {
      if at == Nowhere && 0x080 <= code <= 0x0BF && 1 <= n <= 7 then TpmRc(code, Session(n)) else this
    }
  }

  datatype Result<+T> = Ok(value: T) | Err(error: TpmRc) {
    predicate IsFailure() {
      Err?
    }

    function PropagateFailure<U>(): Result<U>
      requires Err?
    {
      Err(error)
    }

    function Extract(): T
      requires Ok?
    {
      value
    }
  }

  function Fail<T>(code: nat): Result<T> {
    Err(TpmRc(code, Nowhere))
  }

  const RC_INITIALIZE := 0x100
  const RC_FAILURE := 0x101
  const RC_EXCLUSIVE := 0x121
  const RC_AUTH_TYPE := 0x124
  const RC_AUTH_MISSING := 0x125
  const RC_PCR := 0x127
  const RC_PCR_CHANGED := 0x128
  const RC_AUTH_UNAVAILABLE := 0x12F
  const RC_COMMAND_SIZE := 0x142
  const RC_COMMAND_CODE := 0x143
  const RC_AUTHSIZE := 0x144
  const RC_AUTH_CONTEXT := 0x145
  const RC_NV_UNINITIALIZED := 0x14A
  const RC_BAD_CONTEXT := 0x150
  const RC_SENSITIVE := 0x155
  const RC_READ_ONLY := 0x156
  const RC_ATTRIBUTES := 0x082
  const RC_HASH := 0x083
  const RC_VALUE := 0x084
  const RC_HIERARCHY := 0x085
  const RC_TYPE := 0x08A
  const RC_HANDLE := 0x08B
  const RC_AUTH_FAIL := 0x08E
  const RC_PP := 0x090
  const RC_SIZE := 0x095
  const RC_SYMMETRIC := 0x096
  const RC_TAG := 0x097
  const RC_INSUFFICIENT := 0x09A
  const RC_KEY := 0x09C
  const RC_POLICY_FAIL := 0x09D
  const RC_INTEGRITY := 0x09F
  const RC_RESERVED_BITS := 0x0A1
  const RC_BAD_AUTH := 0x0A2
  const RC_EXPIRED := 0x0A3
  const RC_POLICY_CC := 0x0A4
  const RC_CHANNEL := 0x0B0
  const RC_TOO_MANY_CONTEXTS := 0x12E
  const RC_SESSION_MEMORY := 0x903
  const RC_SESSION_HANDLES := 0x905
  const RC_LOCALITY := 0x907
  const RC_REFERENCE_H0 := 0x910
  const RC_REFERENCE_S0 := 0x918
  const RC_LOCKOUT := 0x921
  const RC_NV_UNAVAILABLE := 0x923

  // ---- Big-endian integers ----

  function Be16(n: uint16): Bytes {
    [n / 256, n % 256]
  }

  function Be32(n: uint32): Bytes {
    Be16(n / 0x1_0000) + Be16(n % 0x1_0000)
  }

  function Be64(n: uint64): Bytes {
    Be32(n / 0x1_0000_0000) + Be32(n % 0x1_0000_0000)
  }

  function FromBe16(b: Bytes): uint16
    requires |b| == 2
  {
    (b[0] as int) * 256 + b[1] as int
  }

  function FromBe32(b: Bytes): uint32
    requires |b| == 4
  {
    (FromBe16(b[..2]) as int) * 0x1_0000 + FromBe16(b[2..]) as int
  }

  function FromBe64(b: Bytes): uint64
    requires |b| == 8
  {
    (FromBe32(b[..4]) as int) * 0x1_0000_0000 + FromBe32(b[4..]) as int
  }

  lemma Be16Inverse(n: uint16, b: Bytes)
    requires |b| == 2
    ensures b == Be16(n) <==> n == FromBe16(b)
  {
  }

  lemma Be32Inverse(n: uint32, b: Bytes)
    requires |b| == 4
    ensures b == Be32(n) <==> n == FromBe32(b)
  {
  }

  lemma Be64Inverse(n: uint64, b: Bytes)
    requires |b| == 8
    ensures b == Be64(n) <==> n == FromBe64(b)
  {
    Be32Inverse(n / 0x1_0000_0000, b[..4]);
    Be32Inverse(n % 0x1_0000_0000, b[4..]);
    assert b == b[..4] + b[4..];
    if b == Be64(n) {
      assert b[..4] == Be32(n / 0x1_0000_0000) && b[4..] == Be32(n % 0x1_0000_0000);
    }
  }

  // ---- What loops gather ----

  /** What was gathered so far, in front of what is still to come. */
  function Following<T>(front: seq<T>, r: Result<seq<T>>): Result<seq<T>> {
    match r case Ok(more) => Ok(front + more) case Err(e) => r
  }

  lemma FollowingNothing<T>(front: seq<T>, r: Result<seq<T>>)
    ensures Following([], r) == r
    ensures Following(front, Ok([])) == Ok(front)
  {
    if r.Ok? {
      assert [] + r.value == r.value;
    }
    assert front + [] == front;
  }

  lemma FollowingOne<T>(front: seq<T>, x: T, r: Result<seq<T>>)
    ensures Following(front, Following([x], r)) == Following(front + [x], r)
  {
    if r.Ok? {
      assert front + ([x] + r.value) == front + [x] + r.value;
    }
  }

  lemma Regroup(a: Bytes, b: Bytes, c: Bytes, d: Bytes, e: Bytes)
    ensures a + b + c + d + e == a + (b + (c + (d + e)))
  {
  }

  function Least(a: nat, b: nat): nat {
    if a < b then a else b
  }

  /** `s` repeated octet, as `vec![value; n]` builds. */
  function Filled(value: byte, n: nat): (r: Bytes)
    ensures |r| == n && forall i :: 0 <= i < n ==> r[i] == value
  {
    seq(n, i => value)
  }
}

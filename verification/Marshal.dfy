/** Canonical marshalling: a cursor over received octets and a growing buffer of
  sent ones, with the value-level codecs the two are proved against. */
module Marshal {
  import opened Prelude

  /** What reading one value off the front of a buffer gives. */
  datatype Read<+T> = Got(value: T, rest: Bytes) | Refused(error: TpmRc)

  function ReadBytes(b: Bytes, n: nat): Read<Bytes> {
    if |b| < n then Refused(TpmRc(RC_INSUFFICIENT, Nowhere)) else Got(b[..n], b[n..])
  }

  function ReadU8(b: Bytes): Read<byte> {
    match ReadBytes(b, 1)
    case Got(v, rest) => Got(v[0], rest)
    case Refused(e) => Refused(e)
  }

  function ReadU16(b: Bytes): Read<uint16> {
    match ReadBytes(b, 2)
    case Got(v, rest) => Got(FromBe16(v), rest)
    case Refused(e) => Refused(e)
  }

  function ReadU32(b: Bytes): Read<uint32> {
    match ReadBytes(b, 4)
    case Got(v, rest) => Got(FromBe32(v), rest)
    case Refused(e) => Refused(e)
  }

  /** A TPM2B of at most `max` octets: the size is judged before the body is touched. */
  function ReadSized(b: Bytes, max: nat): Read<Bytes> {
    match ReadU16(b)
    case Refused(e) => Refused(e)
    case Got(size, rest) =>
      if size > max then Refused(TpmRc(RC_SIZE, Nowhere)) else ReadBytes(rest, size)
  }

  function Sized(body: Bytes): Bytes
    requires |body| < 0x1_0000
  {
    Be16(|body|) + body
  }

  /** The same field for a body of any length, as a writer that records overflow leaves it. */
  function Field(body: Bytes): Bytes {
    if |body| < 0x1_0000 then Sized(body) else Be16(0) + body
  }

  lemma Concat(a: Bytes, b: Bytes, c: Bytes)
    ensures a + b + c == a + (b + c)
  {
  }

  lemma ReadBytesExact(b: Bytes, n: nat, v: Bytes, rest: Bytes)
    ensures ReadBytes(b, n) == Got(v, rest) <==> |v| == n && b == v + rest
  {
  }

  lemma ReadU8Exact(b: Bytes, v: byte, rest: Bytes)
    ensures ReadU8(b) == Got(v, rest) <==> b == [v] + rest
  {
  }

  lemma ReadU16Exact(b: Bytes, v: uint16, rest: Bytes)
    ensures ReadU16(b) == Got(v, rest) <==> b == Be16(v) + rest
  {
  }

  lemma ReadU32Exact(b: Bytes, v: uint32, rest: Bytes)
    ensures ReadU32(b) == Got(v, rest) <==> b == Be32(v) + rest
  {
    if |b| >= 4 {
      Be32Inverse(v, b[..4]);
    }
    ReadBytesExact(b, 4, Be32(v), rest);
  }

  lemma ReadSizedExact(b: Bytes, max: nat, v: Bytes, rest: Bytes)
    requires max < 0x1_0000
    ensures ReadSized(b, max) == Got(v, rest) <==> |v| <= max && b == Field(v) + rest
  {
    if |v| <= max && b == Field(v) + rest {
      assert b == Be16(|v|) + (v + rest);
      ReadU16Exact(b, |v|, v + rest);
      ReadBytesExact(v + rest, |v|, v, rest);
    }
    if ReadSized(b, max) == Got(v, rest) {
      var first := ReadU16(b);
      ReadU16Exact(b, first.value, first.rest);
      ReadBytesExact(first.rest, first.value, v, rest);
      assert b == Field(v) + rest;
    }
  }

  // ---- Counted lists ----

  /** `get` reads back exactly what `put` writes for the values `ok` admits. */
  ghost predicate Inverse<T(!new)>(put: T -> Bytes, get: Bytes -> Read<T>, ok: T -> bool) {
    forall b, v, rest {:trigger get(b), put(v) + rest} ::
      get(b) == Got(v, rest) <==> ok(v) && b == put(v) + rest
  }

  function PutItems<T>(items: seq<T>, put: T -> Bytes): Bytes {
    if items == [] then [] else put(items[0]) + PutItems(items[1..], put)
  }

  function PutList<T>(items: seq<T>, put: T -> Bytes): Bytes
    requires |items| <= U32_MAX
  {
    Be32(|items|) + PutItems(items, put)
  }

  function GetItems<T>(b: Bytes, count: nat, get: Bytes -> Read<T>): Read<seq<T>>
    decreases count
  {
    if count == 0 then Got([], b)
    else match get(b)
      case Refused(e) => Refused(e)
      case Got(v, rest) => Prepend([v], GetItems(rest, count - 1, get))
  }

  function GetList<T>(b: Bytes, max: nat, get: Bytes -> Read<T>): Read<seq<T>> {
    match ReadU32(b)
    case Refused(e) => Refused(e)
    case Got(count, rest) =>
      if count > max then Refused(TpmRc(RC_SIZE, Nowhere)) else GetItems(rest, count, get)
  }

  lemma {:induction false} GetItemsReprints<T(!new)>(
    b: Bytes, count: nat, put: T -> Bytes, get: Bytes -> Read<T>, ok: T -> bool,
    vs: seq<T>, rest: Bytes)
    requires Inverse(put, get, ok) && GetItems(b, count, get) == Got(vs, rest)
    ensures |vs| == count && (forall v :: v in vs ==> ok(v)) && b == PutItems(vs, put) + rest
    decreases count
  {
    if count > 0 {
      var first := get(b);
      GetItemsReprints(first.rest, count - 1, put, get, ok, vs[1..], rest);
      Concat(put(first.value), PutItems(vs[1..], put), rest);
      assert ok(first.value) && b == put(first.value) + first.rest;
      assert vs == [first.value] + vs[1..];
    }
  }

  lemma {:induction false} GetItemsReadsBack<T(!new)>(
    put: T -> Bytes, get: Bytes -> Read<T>, ok: T -> bool, vs: seq<T>, rest: Bytes)
    requires Inverse(put, get, ok) && forall v :: v in vs ==> ok(v)
    ensures GetItems(PutItems(vs, put) + rest, |vs|, get) == Got(vs, rest)
    decreases |vs|
  {
    hide Inverse;
    if vs != [] {
      var tail := PutItems(vs[1..], put) + rest;
      Concat(put(vs[0]), PutItems(vs[1..], put), rest);
      assert ok(vs[0]);
      OneReadsBack(put, get, ok, vs[0], tail);
      GetItemsReadsBack(put, get, ok, vs[1..], rest);
      assert vs == [vs[0]] + vs[1..];
    }
  }

  /** Items are read until the octets are used up, and no more than `room` of them. */
  function GetAll<T>(b: Bytes, room: nat, get: Bytes -> Read<T>, tooMany: TpmRc): Result<seq<T>>
    decreases room
  {
    if b == [] then Ok([])
    else if room == 0 then Err(tooMany)
    else match get(b)
      case Refused(e) => Err(e)
      case Got(v, rest) => Following([v], GetAll(rest, room - 1, get, tooMany))
  }

  lemma GetAllStep<T>(front: seq<T>, b: Bytes, room: nat, get: Bytes -> Read<T>, tooMany: TpmRc)
    requires b != [] && room > 0
    ensures match get(b)
            case Got(v, rest) =>
              Following(front, GetAll(b, room, get, tooMany))
              == Following(front + [v], GetAll(rest, room - 1, get, tooMany))
            case Refused(e) => GetAll(b, room, get, tooMany) == Err(e)
  {
    if get(b).Got? && GetAll(get(b).rest, room - 1, get, tooMany).Ok? {
      var more := GetAll(get(b).rest, room - 1, get, tooMany).value;
      assert front + ([get(b).value] + more) == front + [get(b).value] + more;
    }
  }

  lemma {:induction false} GetAllReprints<T(!new)>(
    b: Bytes, room: nat, put: T -> Bytes, get: Bytes -> Read<T>, ok: T -> bool, tooMany: TpmRc)
    requires Inverse(put, get, ok) && GetAll(b, room, get, tooMany).Ok?
    ensures var vs := GetAll(b, room, get, tooMany).value;
            && |vs| <= room
            && (b != [] ==> vs != [])
            && (forall v :: v in vs ==> ok(v))
            && b == PutItems(vs, put)
    decreases room
  {
    if b != [] {
      var one := get(b);
      GetAllReprints(one.rest, room - 1, put, get, ok, tooMany);
      var more := GetAll(one.rest, room - 1, get, tooMany).value;
      assert ([one.value] + more)[1..] == more;
      assert ok(one.value) && b == put(one.value) + one.rest;
    }
  }

  lemma OneReadsBack<T(!new)>(put: T -> Bytes, get: Bytes -> Read<T>, ok: T -> bool, v: T, rest: Bytes)
    requires Inverse(put, get, ok) && ok(v)
    ensures get(put(v) + rest) == Got(v, rest)
  {
  }

  lemma {:induction false} GetAllReadsBack<T(!new)>(
    room: nat, put: T -> Bytes, get: Bytes -> Read<T>, ok: T -> bool, tooMany: TpmRc, vs: seq<T>)
    requires Inverse(put, get, ok) && forall v :: v in vs ==> ok(v) && put(v) != []
    requires |vs| <= room
    ensures GetAll(PutItems(vs, put), room, get, tooMany) == Ok(vs)
    decreases |vs|
  {
    hide Inverse;
    if vs != [] {
      var tail := PutItems(vs[1..], put);
      assert ok(vs[0]) && put(vs[0]) != [];
      OneReadsBack(put, get, ok, vs[0], tail);
      GetAllReadsBack(room - 1, put, get, ok, tooMany, vs[1..]);
      assert vs == [vs[0]] + vs[1..];
    }
  }

  /** A list codec is an inverse whenever its element codec is. */
  lemma GetListExact<T(!new)>(
    b: Bytes, max: nat, put: T -> Bytes, get: Bytes -> Read<T>, ok: T -> bool,
    vs: seq<T>, rest: Bytes)
    requires Inverse(put, get, ok) && max <= U32_MAX
    ensures GetList(b, max, get) == Got(vs, rest)
       <==> |vs| <= max && (forall v :: v in vs ==> ok(v)) && b == PutList(vs, put) + rest
  {
    if GetList(b, max, get) == Got(vs, rest) {
      var first := ReadU32(b);
      ReadU32Exact(b, first.value, first.rest);
      GetItemsReprints(first.rest, first.value, put, get, ok, vs, rest);
      assert b == PutList(vs, put) + rest;
    }
    if |vs| <= max && (forall v :: v in vs ==> ok(v)) && b == PutList(vs, put) + rest {
      assert b == Be32(|vs|) + (PutItems(vs, put) + rest);
      ReadU32Exact(b, |vs|, PutItems(vs, put) + rest);
      GetItemsReadsBack(put, get, ok, vs, rest);
    }
  }

  // ---- Structures ----

  /** What is written one after another: plain octets, and structures behind a length
    prefix, which may hold such structures themselves. */
  datatype Layout = Done | Plain(octets: Bytes, next: Layout) | Prefixed(body: Layout, next: Layout)

  function Text(fields: Layout): Bytes {
    match fields
    case Done => []
    case Plain(octets, next) => octets + Text(next)
    case Prefixed(body, next) => Field(Text(body)) + Text(next)
  }

  /** Every length prefix can hold its length. */
  predicate LengthsHold(fields: Layout) {
    match fields
    case Done => true
    case Plain(_, next) => LengthsHold(next)
    case Prefixed(body, next) => LengthsHold(body) && |Text(body)| < 0x1_0000 && LengthsHold(next)
  }

  /** The same fields, whatever the octets in them. */
  predicate SameShape(a: Layout, b: Layout) {
    match (a, b)
    case (Done, Done) => true
    case (Plain(x, m), Plain(y, n)) => |x| == |y| && SameShape(m, n)
    case (Prefixed(x, m), Prefixed(y, n)) => SameShape(x, y) && SameShape(m, n)
    case _ => false
  }

  /** Reads fields of a given shape: each length prefix has to cover its structure exactly. */
  function ReadLayout(b: Bytes, shape: Layout): Read<Layout>
    decreases shape
  {
    match shape
    case Done => Got(Done, b)
    case Plain(octets, next) =>
      (match ReadBytes(b, |octets|) case Refused(e) => Refused(e) case Got(v, b1) =>
       match ReadLayout(b1, next) case Refused(e) => Refused(e) case Got(more, rest) => Got(Plain(v, more), rest))
    case Prefixed(body, next) =>
      (match ReadSized(b, 0xFFFF) case Refused(e) => Refused(e) case Got(v, b1) =>
       match ReadLayout(v, body) case Refused(e) => Refused(e) case Got(inner, left) =>
       if left != [] then Refused(TpmRc(RC_SIZE, Nowhere))
       else match ReadLayout(b1, next) case Refused(e) => Refused(e) case Got(more, rest) => Got(Prefixed(inner, more), rest))
  }

  /** What is written reads back as the fields it was written from, and as no others,
    exactly when every length prefix holds its length. */
  lemma {:induction false} LayoutReadsBack(b: Bytes, shape: Layout, fields: Layout, rest: Bytes)
    ensures ReadLayout(b, shape) == Got(fields, rest) <==> SameShape(shape, fields) && LengthsHold(fields) && b == Text(fields) + rest
    decreases shape
  {
    match (shape, fields) {
      case (Plain(_, next), Plain(octets, more)) =>
        ReadBytesExact(b, |octets|, octets, Text(more) + rest);
        Concat(octets, Text(more), rest);
        if ReadBytes(b, |octets|).Got? {
          LayoutReadsBack(ReadBytes(b, |octets|).rest, next, more, rest);
        }
      case (Prefixed(body, next), Prefixed(inner, more)) =>
        var first := ReadSized(b, 0xFFFF);
        ReadSizedExact(b, 0xFFFF, Text(inner), Text(more) + rest);
        Concat(Field(Text(inner)), Text(more), rest);
        if first.Got? {
          LayoutReadsBack(first.value, body, inner, []);
          LayoutReadsBack(first.rest, next, more, rest);
          assert Text(inner) + [] == Text(inner);
        }
        hide ReadSized, Field;
      case _ =>
    }
  }

  // ---- The cursor and the buffer ----

  /** True when `r` is what `read` promises and `after` is where it leaves the cursor. */
  ghost predicate Follows<T>(read: Read<T>, r: Result<T>, after: Bytes) {
    match read
    case Got(v, rest) => r == Ok(v) && after == rest
    case Refused(e) => r == Err(e)
  }

  /** `front`, then what `r` reads. */
  function Prepend<T>(front: seq<T>, r: Read<seq<T>>): Read<seq<T>> {
    match r case Got(v, rest) => Got(front + v, rest) case Refused(e) => r
  }

  lemma PrependNothing<T>(r: Read<seq<T>>)
    ensures Prepend([], r) == r
  {
    if r.Got? {
      assert [] + r.value == r.value;
    }
  }

  lemma PrependOne<T>(front: seq<T>, x: T, r: Read<seq<T>>)
    ensures Prepend(front, Prepend([x], r)) == Prepend(front + [x], r)
  {
    if r.Got? {
      assert front + ([x] + r.value) == front + [x] + r.value;
    }
  }

  class Reader {
    const buf: Bytes
    var pos: nat

    ghost predicate Valid()
      reads this
    {
      pos <= |buf|
    }

    function Rest(): Bytes
      requires Valid()
      reads this
    {
      buf[pos..]
    }

    constructor (octets: Bytes)
      ensures Valid() && Rest() == octets && buf == octets
    {
      buf, pos := octets, 0;
    }

    method Take(n: nat) returns (r: Result<Bytes>)
      requires Valid()
      modifies this
      ensures Valid() && Follows(ReadBytes(old(Rest()), n), r, Rest())
      ensures r.Err? ==> pos == old(pos)
    {
      if |buf| - pos < n {
        return Fail(RC_INSUFFICIENT);
      }
      r := Ok(buf[pos..pos + n]);
      assert buf[pos..pos + n] == buf[pos..][..n] && buf[pos + n..] == buf[pos..][n..];
      pos := pos + n;
    }

    method TakeRest() returns (r: Bytes)
      requires Valid()
      modifies this
      ensures Valid() && r == old(Rest()) && Rest() == []
    {
      r := buf[pos..];
      pos := |buf|;
    }

    method Sub(n: nat) returns (r: Result<Reader>)
      requires Valid()
      modifies this
      ensures Valid()
      ensures match ReadBytes(old(Rest()), n)
              case Got(v, rest) => r.Ok? && fresh(r.value) && r.value.Valid() && r.value.Rest() == v && Rest() == rest
              case Refused(e) => r == Err(e)
    {
      var t := Take(n);
      if t.Err? {
        return Err(t.error);
      }
      var sub := new Reader(t.value);
      r := Ok(sub);
    }

    method U8() returns (r: Result<byte>)
      requires Valid()
      modifies this
      ensures Valid() && Follows(ReadU8(old(Rest())), r, Rest())
    {
      var t := Take(1);
      r := if t.Ok? then Ok(t.value[0]) else Err(t.error);
    }

    method U16() returns (r: Result<uint16>)
      requires Valid()
      modifies this
      ensures Valid() && Follows(ReadU16(old(Rest())), r, Rest())
    {
      var t := Take(2);
      r := if t.Ok? then Ok(FromBe16(t.value)) else Err(t.error);
    }

    method U32() returns (r: Result<uint32>)
      requires Valid()
      modifies this
      ensures Valid() && Follows(ReadU32(old(Rest())), r, Rest())
    {
      var t := Take(4);
      r := if t.Ok? then Ok(FromBe32(t.value)) else Err(t.error);
    }

    method Tpm2b(max: nat) returns (r: Result<Bytes>)
      requires Valid()
      modifies this
      ensures Valid() && Follows(ReadSized(old(Rest()), max), r, Rest())
    {
      var size := U16();
      if size.Err? {
        return Err(size.error);
      }
      if size.value > max {
        return Fail(RC_SIZE);
      }
      r := Take(size.value);
    }
  }

  class Writer {
    var buf: Bytes
    var overflow: bool

    constructor ()
      ensures buf == [] && !overflow
    {
      buf, overflow := [], false;
    }

    method Octets(b: Bytes)
      modifies this`buf
      ensures buf == old(buf) + b
    {
      buf := buf + b;
    }

    /** A length prefix, then the body: a body too long to describe is recorded, never truncated. */
    method Sized16(body: Bytes)
      modifies this
      ensures overflow == (old(overflow) || |body| >= 0x1_0000)
      ensures buf == old(buf) + Field(body)
    {
      hide Be16;
      if |body| < 0x1_0000 {
        Octets(Be16(|body|));
      } else {
        overflow := true;
        Octets(Be16(0));
      }
      Octets(body);
    }

    /** The same field with the length filled in once the structure has been written behind it. */
    method Sized16With(body: Layout)
      modifies this
      ensures overflow == (old(overflow) || !LengthsHold(body) || |Text(body)| >= 0x1_0000)
      ensures buf == old(buf) + Field(Text(body))
      decreases body, 1
    {
      hide Text, LengthsHold;
      var at := |buf|;
      Octets(Be16(0));
      var start := |buf|;
      Put(body);
      assert buf[..at] == old(buf) && buf[at + 2..] == Text(body);
      if |buf| - start < 0x1_0000 {
        buf := buf[..at] + Be16(|buf| - start) + buf[at + 2..];
      } else {
        overflow := true;
      }
    }

    method Put(fields: Layout)
      modifies this
      ensures overflow == (old(overflow) || !LengthsHold(fields))
      ensures buf == old(buf) + Text(fields)
      decreases fields, 0
    {
      hide Field;
      match fields {
        case Done =>
        case Plain(octets, next) =>
          Octets(octets);
          Put(next);
          Concat(old(buf), octets, Text(next));
        case Prefixed(body, next) =>
          Sized16With(body);
          Put(next);
          Concat(old(buf), Field(Text(body)), Text(next));
      }
    }

    /** The octets written, unless a length field could not hold its length. */
    method Finish() returns (r: Result<Bytes>)
      ensures r == if overflow then Fail(RC_SIZE) else Ok(buf)
    {
      if overflow {
        return Fail(RC_SIZE);
      }
      return Ok(buf);
    }
  }

  /** A finished buffer is the text of the fields written, which reads back as them
    exactly; it is given out if and only if every length prefix holds its length. */
  method Marshalled(fields: Layout) returns (r: Result<Bytes>)
    ensures r.Ok? <==> LengthsHold(fields)
    ensures r.Ok? ==> r.value == Text(fields) && ReadLayout(r.value, fields) == Got(fields, [])
    ensures r.Err? ==> r == Fail(RC_SIZE)
  {
    var writer := new Writer();
    writer.Put(fields);
    r := writer.Finish();
    SameShapeItself(fields);
    assert Text(fields) == Text(fields) + [];
    LayoutReadsBack(Text(fields), fields, fields, []);
  }

  lemma SameShapeItself(fields: Layout)
    ensures SameShape(fields, fields)
  {
  }
}

/** Parsing a command buffer, and the printer it is the exact inverse of. */
module CommandParse {
  import opened Prelude
  import opened Marshal
  import opened Commands

  datatype Header = Header(tag: uint16, size: uint32, code: uint32)

  // ---- What parsing gives, on values ----

  function HeaderOf(buf: Bytes): Result<Header> {
    if |buf| < 2 then Fail(RC_COMMAND_SIZE)
    else if FromBe16(buf[..2]) != ST_NO_SESSIONS && FromBe16(buf[..2]) != ST_SESSIONS then Fail(RC_TAG)
    else if |buf| < HEADER_SIZE then Fail(RC_COMMAND_SIZE)
    else if FromBe32(buf[2..6]) != |buf| then Fail(RC_COMMAND_SIZE)
    else if FromBe32(buf[2..6]) > MAX_COMMAND_SIZE then Fail(RC_COMMAND_SIZE)
    else Ok(Header(FromBe16(buf[..2]), FromBe32(buf[2..6]), FromBe32(buf[6..10])))
  }

  function ReadHandles(b: Bytes, count: nat): Read<seq<uint32>> {
    GetItems(b, count, ReadU32)
  }

  function ReadSession(b: Bytes): Read<SessionInput> {
    match ReadU32(b) case Refused(e) => Refused(e) case Got(handle, b1) =>
    match ReadSized(b1, MAX_DIGEST) case Refused(e) => Refused(e) case Got(nonce, b2) =>
    match ReadU8(b2) case Refused(e) => Refused(e) case Got(attributes, b3) =>
    if Reserved(attributes) then Refused(TpmRc(RC_RESERVED_BITS, Nowhere)) else
    match ReadSized(b3, MAX_DIGEST) case Refused(e) => Refused(e) case Got(hmac, rest) =>
    Got(SessionInput(handle, nonce, attributes, hmac), rest)
  }

  /** Sessions are read until the area is used up, and no more than three of them. */
  function ReadArea(area: Bytes): Result<seq<SessionInput>> {
    GetAll(area, MAX_SESSION_NUM, ReadSession, TpmRc(RC_AUTHSIZE, Nowhere))
  }

  /** What follows the handle area: the sessions and the parameters. */
  function ReadSessionsAndParameters(code: uint32, b: Bytes): Result<(seq<SessionInput>, Bytes)> {
    if RequiresNoSessions(code) then Fail(RC_AUTH_CONTEXT)
    else match ReadU32(b)
      case Refused(e) => Err(e)
      case Got(size, rest) =>
        if size < 9 || size > |rest| then Fail(RC_AUTHSIZE)
        else match ReadArea(rest[..size])
          case Err(e) => Err(e)
          case Ok(sessions) => Ok((sessions, rest[size..]))
  }

  function Parsed(table: CommandTable, buf: Bytes, locality: nat): Result<Request> {
    match HeaderOf(buf) case Err(e) => Err(e) case Ok(h) =>
    match table(h.code) case None => Fail(RC_COMMAND_CODE) case Some(info) =>
    match ReadHandles(buf[HEADER_SIZE..], info.handles) case Refused(e) => Err(e) case Got(handles, rest) =>
    if h.tag == ST_SESSIONS then
      match ReadSessionsAndParameters(h.code, rest)
      case Err(e) => Err(e)
      case Ok(sp) => Ok(Request(info, h.tag, h.code, handles, sp.0, sp.1, locality))
    else if info.authHandles > 0 then Fail(RC_AUTH_MISSING)
    else Ok(Request(info, h.tag, h.code, handles, [], rest, locality))
  }

  /** Four commands are read without sessions or not at all. */
  lemma SomeCarryNoSessions(table: CommandTable, buf: Bytes, locality: nat)
    requires Parsed(table, buf, locality).Ok?
    ensures var q := Parsed(table, buf, locality).value;
            RequiresNoSessions(q.code) ==> q.sessions == [] && q.tag == ST_NO_SESSIONS
  {
    hide ReadHandles;
  }

  // ---- The parser, step by step ----

  method ParseHeader(buf: Bytes) returns (r: Result<Header>)
    ensures r == HeaderOf(buf)
    ensures r.Ok? ==> HEADER_SIZE <= |buf|
  {
    if |buf| < 2 {
      return Fail(RC_COMMAND_SIZE);
    }
    var tag := FromBe16(buf[..2]);
    if tag != ST_NO_SESSIONS && tag != ST_SESSIONS {
      return Fail(RC_TAG);
    }
    if |buf| < HEADER_SIZE {
      return Fail(RC_COMMAND_SIZE);
    }
    var size := FromBe32(buf[2..6]);
    if size != |buf| || size > MAX_COMMAND_SIZE {
      return Fail(RC_COMMAND_SIZE);
    }
    return Ok(Header(tag, size, FromBe32(buf[6..10])));
  }

  method UnmarshalSession(r: Reader) returns (s: Result<SessionInput>)
    requires r.Valid()
    modifies r
    ensures r.Valid() && Follows(ReadSession(old(r.Rest())), s, r.Rest())
  {
    var handle :- r.U32();
    var nonce :- r.Tpm2b(MAX_DIGEST);
    var attributes :- r.U8();
    if Reserved(attributes) {
      return Fail(RC_RESERVED_BITS);
    }
    var hmac :- r.Tpm2b(MAX_DIGEST);
    return Ok(SessionInput(handle, nonce, attributes, hmac));
  }

  method UnmarshalHandles(r: Reader, count: nat) returns (h: Result<seq<uint32>>)
    requires r.Valid()
    modifies r
    ensures r.Valid() && Follows(ReadHandles(old(r.Rest()), count), h, r.Rest())
  {
    var handles: seq<uint32> := [];
    PrependNothing(ReadHandles(r.Rest(), count));
    for i := 0 to count
      invariant r.Valid() && |handles| == i
      invariant ReadHandles(old(r.Rest()), count) == Prepend(handles, ReadHandles(r.Rest(), count - i))
    {
      var one :- r.U32();
      PrependOne(handles, one, ReadHandles(r.Rest(), count - i - 1));
      handles := handles + [one];
    }
    assert handles + [] == handles;
    return Ok(handles);
  }

  method UnmarshalSessions(area: Reader, most: nat) returns (s: Result<seq<SessionInput>>)
    requires area.Valid()
    modifies area
    ensures area.Valid() && s == GetAll(old(area.Rest()), most, ReadSession, TpmRc(RC_AUTHSIZE, Nowhere))
    ensures s.Ok? ==> area.Rest() == []
  {
    hide ReadSession;
    var tooMany := TpmRc(RC_AUTHSIZE, Nowhere);
    var sessions: seq<SessionInput> := [];
    ghost var whole := GetAll(area.Rest(), most, ReadSession, tooMany);
    FollowingNothing(sessions, whole);
    while area.pos < |area.buf|
      invariant area.Valid() && |sessions| <= most
      invariant whole == Following(sessions, GetAll(area.Rest(), most - |sessions|, ReadSession, tooMany))
      decreases most - |sessions|
    {
      if |sessions| >= most {
        return Err(tooMany);
      }
      ghost var before, room := area.Rest(), most - |sessions|;
      GetAllStep(sessions, before, room, ReadSession, tooMany);
      var one :- UnmarshalSession(area);
      assert ReadSession(before) == Got(one, area.Rest());
      assert whole == Following(sessions + [one], GetAll(area.Rest(), room - 1, ReadSession, tooMany));
      sessions := sessions + [one];
    }
    assert sessions + [] == sessions;
    return Ok(sessions);
  }

  /** The authorization area: its size, then sessions that use it up exactly. */
  method UnmarshalAuthorizationArea(cursor: Reader, code: uint32) returns (r: Result<seq<SessionInput>>)
    requires cursor.Valid()
    modifies cursor
    ensures cursor.Valid()
    ensures match ReadSessionsAndParameters(code, old(cursor.Rest()))
            case Err(e) => r == Err(e)
            case Ok(sp) => r == Ok(sp.0) && cursor.Rest() == sp.1
  {
    hide ReadSession;
    if RequiresNoSessions(code) {
      return Fail(RC_AUTH_CONTEXT);
    }
    var size :- cursor.U32();
    if size < 9 || size > |cursor.buf| - cursor.pos {
      return Fail(RC_AUTHSIZE);
    }
    var area := cursor.Sub(size);
    var sessions :- UnmarshalSessions(area.value, MAX_SESSION_NUM);
    if sessions == [] {
      // an area of nine octets or more holds a session
      assert false;
    }
    return Ok(sessions);
  }

  method Parse(table: CommandTable, buf: Bytes, locality: nat) returns (r: Result<Request>)
    ensures r == Parsed(table, buf, locality)
  {
    hide HeaderOf, ReadHandles, ReadSessionsAndParameters;
    var h :- ParseHeader(buf);
    var info := table(h.code);
    if info.None? {
      return Fail(RC_COMMAND_CODE);
    }

    var cursor := new Reader(buf[HEADER_SIZE..]);
    var handles :- UnmarshalHandles(cursor, info.value.handles);

    var sessions: seq<SessionInput> := [];
    if h.tag == ST_SESSIONS {
      sessions :- UnmarshalAuthorizationArea(cursor, h.code);
    } else if info.value.authHandles > 0 {
      return Fail(RC_AUTH_MISSING);
    }

    var parameters := cursor.TakeRest();
    return Ok(Request(info.value, h.tag, h.code, handles, sessions, parameters, locality));
  }

  // ---- The printer ----

  predicate WellFormedSession(s: SessionInput) {
    |s.nonceCaller| <= MAX_DIGEST && |s.hmac| <= MAX_DIGEST && !Reserved(s.attributes)
  }

  function PrintSession(s: SessionInput): Bytes {
    Be32(s.handle) + Field(s.nonceCaller) + [s.attributes] + Field(s.hmac)
  }

  function PrintArea(sessions: seq<SessionInput>): Bytes {
    PutItems(sessions, PrintSession)
  }

  lemma {:induction false} AreaLength(sessions: seq<SessionInput>)
    requires forall s :: s in sessions ==> WellFormedSession(s)
    ensures 9 * |sessions| <= |PrintArea(sessions)| <= 137 * |sessions|
    decreases |sessions|
  {
    if sessions != [] {
      assert WellFormedSession(sessions[0]) && 9 <= |PrintSession(sessions[0])| <= 137;
      AreaLength(sessions[1..]);
    }
  }

  /** A request some caller could have meant. */
  predicate WellFormed(table: CommandTable, q: Request) {
    && table(q.code) == Some(q.info)
    && |q.handles| == q.info.handles
    && (q.tag == ST_SESSIONS || q.tag == ST_NO_SESSIONS)
    && (q.tag == ST_NO_SESSIONS ==> q.sessions == [] && q.info.authHandles == 0)
    && (q.tag == ST_SESSIONS ==> 1 <= |q.sessions| <= MAX_SESSION_NUM && !RequiresNoSessions(q.code))
    && forall s :: s in q.sessions ==> WellFormedSession(s)
  }

  /** The session area with its size in front. */
  function PrintSessions(sessions: seq<SessionInput>): Bytes
    requires |PrintArea(sessions)| <= U32_MAX
  {
    Be32(|PrintArea(sessions)|) + PrintArea(sessions)
  }

  function PrintBody(q: Request): Bytes
    requires |PrintArea(q.sessions)| <= U32_MAX
  {
    PutItems(q.handles, Be32) + ((if q.tag == ST_SESSIONS then PrintSessions(q.sessions) else []) + q.parameters)
  }

  /** The request fits one command buffer. */
  predicate Fits(q: Request) {
    |PrintArea(q.sessions)| <= U32_MAX && HEADER_SIZE + |PrintBody(q)| <= MAX_COMMAND_SIZE
  }

  function Print(q: Request): Bytes
    requires Fits(q)
  {
    Be16(q.tag) + Be32(HEADER_SIZE + |PrintBody(q)|) + Be32(q.code) + PrintBody(q)
  }

  // ---- They are exact inverses ----

  lemma HandlesInverse()
    ensures Inverse<uint32>(Be32, ReadU32, h => true)
  {
    forall b: Bytes, v: uint32, rest: Bytes
      ensures ReadU32(b) == Got(v, rest) <==> b == Be32(v) + rest
    {
      ReadU32Exact(b, v, rest);
    }
  }

  lemma SessionReprints(b: Bytes, s: SessionInput, rest: Bytes)
    requires ReadSession(b) == Got(s, rest)
    ensures WellFormedSession(s) && b == PrintSession(s) + rest
  {
    hide ReadU32, ReadU8, ReadSized, Field, Be32;
    var b1 := ReadU32(b).rest;
    var b2 := ReadSized(b1, MAX_DIGEST).rest;
    var b3 := ReadU8(b2).rest;
    ReadU32Exact(b, s.handle, b1);
    ReadSizedExact(b1, MAX_DIGEST, s.nonceCaller, b2);
    ReadU8Exact(b2, s.attributes, b3);
    ReadSizedExact(b3, MAX_DIGEST, s.hmac, rest);
    Regroup(Be32(s.handle), Field(s.nonceCaller), [s.attributes], Field(s.hmac), rest);
  }

  lemma SessionReadsBack(s: SessionInput, rest: Bytes)
    requires WellFormedSession(s)
    ensures ReadSession(PrintSession(s) + rest) == Got(s, rest)
  {
    var b3 := Field(s.hmac) + rest;
    var b2 := [s.attributes] + b3;
    var b1 := Field(s.nonceCaller) + b2;
    Regroup(Be32(s.handle), Field(s.nonceCaller), [s.attributes], Field(s.hmac), rest);
    ReadU32Exact(Be32(s.handle) + b1, s.handle, b1);
    ReadSizedExact(b1, MAX_DIGEST, s.nonceCaller, b2);
    ReadU8Exact(b2, s.attributes, b3);
    ReadSizedExact(b3, MAX_DIGEST, s.hmac, rest);
  }

  lemma SessionsInverse()
    ensures Inverse(PrintSession, ReadSession, WellFormedSession)
  {
    forall b: Bytes, s: SessionInput, rest: Bytes
      ensures ReadSession(b) == Got(s, rest) <==> WellFormedSession(s) && b == PrintSession(s) + rest
    {
      if ReadSession(b) == Got(s, rest) {
        SessionReprints(b, s, rest);
      }
      if WellFormedSession(s) {
        SessionReadsBack(s, rest);
      }
    }
  }

  lemma AreaReprints(area: Bytes, sessions: seq<SessionInput>)
    requires ReadArea(area) == Ok(sessions)
    ensures |sessions| <= MAX_SESSION_NUM && (forall s :: s in sessions ==> WellFormedSession(s))
    ensures area == PrintArea(sessions)
  {
    hide ReadSession, PrintSession, WellFormedSession, GetAll, PutItems;
    SessionsInverse();
    GetAllReprints(area, MAX_SESSION_NUM, PrintSession, ReadSession, WellFormedSession, TpmRc(RC_AUTHSIZE, Nowhere));
  }

  lemma SessionsReprint(code: uint32, b: Bytes, sessions: seq<SessionInput>, parameters: Bytes)
    requires ReadSessionsAndParameters(code, b) == Ok((sessions, parameters))
    ensures !RequiresNoSessions(code) && 1 <= |sessions| <= MAX_SESSION_NUM
    ensures forall s :: s in sessions ==> WellFormedSession(s)
    ensures |PrintArea(sessions)| <= U32_MAX && b == PrintSessions(sessions) + parameters
  {
    hide ReadU32, Be32, ReadArea, PrintArea, WellFormedSession;
    var size := ReadU32(b);
    ReadU32Exact(b, size.value, size.rest);
    var area := size.rest[..size.value];
    AreaReprints(area, sessions);
    if sessions == [] {
      EmptyAreaPrint();
      assert false;
    }
    assert size.rest == area + parameters;
    Concat(Be32(size.value), area, parameters);
  }

  lemma EmptyAreaPrint()
    ensures PrintArea([]) == []
  {
  }

  lemma SessionsReadBack(code: uint32, sessions: seq<SessionInput>, parameters: Bytes)
    requires !RequiresNoSessions(code) && 1 <= |sessions| <= MAX_SESSION_NUM
    requires forall s :: s in sessions ==> WellFormedSession(s)
    ensures |PrintArea(sessions)| <= U32_MAX
    ensures ReadSessionsAndParameters(code, PrintSessions(sessions) + parameters) == Ok((sessions, parameters))
  {
    AreaLength(sessions);
    var area := PrintArea(sessions);
    var after := area + parameters;
    Concat(Be32(|area|), area, parameters);
    ReadU32Exact(PrintSessions(sessions) + parameters, |area|, after);
    assert after[..|area|] == area && after[|area|..] == parameters;
    SessionsInverse();
    GetAllReadsBack(MAX_SESSION_NUM, PrintSession, ReadSession, WellFormedSession, TpmRc(RC_AUTHSIZE, Nowhere), sessions);
  }

  lemma HeaderReprints(buf: Bytes)
    requires HeaderOf(buf).Ok?
    ensures var h := HeaderOf(buf).value;
            && h.size == |buf| <= MAX_COMMAND_SIZE
            && buf == Be16(h.tag) + Be32(h.size) + Be32(h.code) + buf[HEADER_SIZE..]
  {
    var h := HeaderOf(buf).value;
    Be16Inverse(h.tag, buf[..2]);
    Be32Inverse(h.size, buf[2..6]);
    Be32Inverse(h.code, buf[6..10]);
    assert buf == buf[..2] + buf[2..6] + buf[6..10] + buf[10..];
  }

  lemma HeaderReadsBack(tag: uint16, code: uint32, body: Bytes)
    requires tag == ST_SESSIONS || tag == ST_NO_SESSIONS
    requires HEADER_SIZE + |body| <= MAX_COMMAND_SIZE
    ensures var size := HEADER_SIZE + |body|;
            var buf := Be16(tag) + Be32(size) + Be32(code) + body;
            HeaderOf(buf) == Ok(Header(tag, size, code)) && buf[HEADER_SIZE..] == body
  {
    var size := HEADER_SIZE + |body|;
    var buf := Be16(tag) + Be32(size) + Be32(code) + body;
    assert buf[..2] == Be16(tag) && buf[2..6] == Be32(size) && buf[6..10] == Be32(code);
    Be16Inverse(tag, buf[..2]);
    Be32Inverse(size, buf[2..6]);
    Be32Inverse(code, buf[6..10]);
  }

  /** Every accepted buffer is reprinted octet for octet. */
  lemma ParseThenPrint(table: CommandTable, buf: Bytes, locality: nat)
    requires Parsed(table, buf, locality).Ok?
    ensures var q := Parsed(table, buf, locality).value;
            && q.locality == locality
            && WellFormed(table, q) && Fits(q)
            && Print(q) == buf
  {
    hide Holds, WellFormed, ReadHandles, ReadSessionsAndParameters, PrintBody, Be16, Be32;
    var q := Parsed(table, buf, locality).value;
    ParsedParts(table, buf, locality);
    HeaderReprints(buf);
    var body := buf[HEADER_SIZE..];
    BodyReprints(table, body, q);
    assert PrintBody(q) == body;
  }

  /** The handle area and what follows it hold the parts of `q`. */
  predicate Holds(body: Bytes, q: Request) {
    match ReadHandles(body, q.info.handles)
    case Refused(e) => false
    case Got(handles, rest) =>
      && handles == q.handles
      && if q.tag == ST_SESSIONS then ReadSessionsAndParameters(q.code, rest) == Ok((q.sessions, q.parameters))
         else q.info.authHandles == 0 && q.sessions == [] && q.parameters == rest
  }

  lemma ParsedParts(table: CommandTable, buf: Bytes, locality: nat)
    requires Parsed(table, buf, locality).Ok?
    ensures var q := Parsed(table, buf, locality).value;
            && q.locality == locality
            && HeaderOf(buf) == Ok(Header(q.tag, |buf|, q.code))
            && (q.tag == ST_SESSIONS || q.tag == ST_NO_SESSIONS)
            && table(q.code) == Some(q.info)
            && Holds(buf[HEADER_SIZE..], q)
  {
  }

  lemma BodyReprints(table: CommandTable, body: Bytes, q: Request)
    requires table(q.code) == Some(q.info) && (q.tag == ST_SESSIONS || q.tag == ST_NO_SESSIONS)
    requires Holds(body, q)
    ensures WellFormed(table, q) && |PrintArea(q.sessions)| <= U32_MAX && PrintBody(q) == body
  {
    HandlesInverse();
    var rest := ReadHandles(body, q.info.handles).rest;
    GetItemsReprints(body, q.info.handles, Be32, ReadU32, h => true, q.handles, rest);
    if q.tag == ST_SESSIONS {
      SessionsReprint(q.code, rest, q.sessions, q.parameters);
    } else {
      assert rest == [] + q.parameters;
    }
  }

  lemma BodyReadsBack(table: CommandTable, q: Request)
    requires WellFormed(table, q) && |PrintArea(q.sessions)| <= U32_MAX
    ensures Holds(PrintBody(q), q)
  {
    hide ReadSessionsAndParameters, PrintSessions;
    HandlesInverse();
    var rest := (if q.tag == ST_SESSIONS then PrintSessions(q.sessions) else []) + q.parameters;
    GetItemsReadsBack(Be32, ReadU32, h => true, q.handles, rest);
    if q.tag == ST_SESSIONS {
      SessionsReadBack(q.code, q.sessions, q.parameters);
    } else {
      assert rest == q.parameters;
    }
  }

  lemma HeldIsParsed(table: CommandTable, buf: Bytes, q: Request)
    requires HEADER_SIZE <= |buf| <= MAX_COMMAND_SIZE
    requires HeaderOf(buf) == Ok(Header(q.tag, |buf|, q.code))
    requires q.tag == ST_SESSIONS || q.tag == ST_NO_SESSIONS
    requires table(q.code) == Some(q.info) && Holds(buf[HEADER_SIZE..], q)
    ensures Parsed(table, buf, q.locality) == Ok(q)
  {
  }

  /** Every well-formed request that fits parses back to itself. */
  lemma PrintThenParse(table: CommandTable, q: Request)
    requires WellFormed(table, q) && Fits(q)
    ensures Parsed(table, Print(q), q.locality) == Ok(q)
  {
    hide Holds, HeaderOf, Parsed;
    HeaderReadsBack(q.tag, q.code, PrintBody(q));
    BodyReadsBack(table, q);
    HeldIsParsed(table, Print(q), q);
  }

  /** A buffer is accepted exactly when it prints some well-formed request. */
  lemma AcceptedIffPrinted(table: CommandTable, buf: Bytes, locality: nat, q: Request)
    requires q.locality == locality
    ensures Parsed(table, buf, locality) == Ok(q)
       <==> WellFormed(table, q) && Fits(q) && Print(q) == buf
  {
    if Parsed(table, buf, locality) == Ok(q) {
      ParseThenPrint(table, buf, locality);
    }
    if WellFormed(table, q) && Fits(q) {
      PrintThenParse(table, q);
    }
  }
}

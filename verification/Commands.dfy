/** Command codes, handles and the parsed form of a command. */
module Commands {
  import opened Prelude

  const ST_NO_SESSIONS := 0x8001
  const ST_SESSIONS := 0x8002

  const HEADER_SIZE := 10
  const MAX_COMMAND_SIZE := 4096
  const MAX_SESSION_NUM := 3
  const MAX_DIGEST := 64

  const CC_CLEAR := 0x126
  const CC_PP_COMMANDS := 0x12D
  const CC_GET_COMMAND_AUDIT_DIGEST := 0x133
  const CC_DICTIONARY_ATTACK_LOCK_RESET := 0x139
  const CC_DICTIONARY_ATTACK_PARAMETERS := 0x13A
  const CC_SET_COMMAND_CODE_AUDIT_STATUS := 0x140
  const CC_STARTUP := 0x144
  const CC_SHUTDOWN := 0x145
  const CC_POLICY_SECRET := 0x151
  const CC_CONTEXT_LOAD := 0x161
  const CC_CONTEXT_SAVE := 0x162
  const CC_FLUSH_CONTEXT := 0x165
  const CC_START_AUTH_SESSION := 0x176
  const CC_GET_CAPABILITY := 0x17A
  const CC_GET_TEST_RESULT := 0x17C
  const CC_READ_CLOCK := 0x181
  const CC_EVENT_SEQUENCE_COMPLETE := 0x185

  const RH_NULL := 0x4000_0007
  const RH_UNASSIGNED := 0x4000_0008
  const RS_PW := 0x4000_0009
  const RH_LOCKOUT := 0x4000_000A
  const RH_PLATFORM := 0x4000_000C

  // The bits of TPMA_SESSION, Part 2 Table 38.
  const CONTINUE_SESSION := 0x01
  const AUDIT_EXCLUSIVE := 0x02
  const AUDIT_RESET := 0x04
  const DECRYPT := 0x20
  const ENCRYPT := 0x40
  const AUDIT := 0x80

  predicate Has(attributes: byte, bit: int)
    requires bit > 0
  {
    attributes / bit % 2 == 1
  }

  /** Bits 4:3 shall be zero. */
  predicate Reserved(attributes: byte) {
    attributes / 8 % 4 != 0
  }

  /** What the command table says of one command. */
  datatype CommandInfo = CommandInfo(handles: nat, authHandles: nat, nv: bool, flushed: bool)

  type CommandTable = uint32 -> Option<CommandInfo>

  datatype SessionInput = SessionInput(handle: uint32, nonceCaller: Bytes, attributes: byte, hmac: Bytes)

  datatype Request = Request(
    info: CommandInfo,
    tag: uint16,
    code: uint32,
    handles: seq<uint32>,
    sessions: seq<SessionInput>,
    parameters: Bytes,
    locality: nat)
  {
    predicate HandleIs(index: nat, h: uint32) {
      index < |handles| && handles[index] == h
    }
  }

  /** The four commands whose tag shall be TPM_ST_NO_SESSIONS. */
  predicate RequiresNoSessions(code: uint32) {
    code == CC_CONTEXT_SAVE || code == CC_CONTEXT_LOAD || code == CC_FLUSH_CONTEXT || code == CC_STARTUP
  }

  predicate AllowedInFailureMode(code: uint32) {
    code == CC_GET_TEST_RESULT || code == CC_GET_CAPABILITY
  }
}

# Async stream numbering scheme (tbox `astream.h`), modelled in Dafny

The asynchronous stream of the Treasure Box library numbers its control
commands and its completion states with one type/index scheme. Each enum
puts its generic and its backend-specific constants in one integer
namespace. The two enums are separate, and their values overlap: GET_URL
and CLOSED are both 1. The header defines three packing macros:

- `TB_ASTREAM_CTRL(type, ctrl)` is `(type << 16) | ctrl`, and builds every command;
- `TB_ASTREAM_STATE(type, state)` packs state codes the same way, and builds every socket state;
- `TB_ASTREAM_CTRL_FLTR(type, ctrl)` nests a second level, `(filtertype << 8) | ctrl`, under the FLTR stream type. No constant in the header uses it.

So two macros build the constants.

The enums then fix these tables: the stream types (NONE, FILE, SOCK, HTTP,
FLTR = 0..4), the filter types (NONE, CHARSET, ZIP, CHUNKED = 0..3), the
generic, file and socket commands, and the generic and socket states. The
header also documents two integer conventions. Open, read, writ, seek and
sync return 1 (done), 0 (pending) or -1 (failed). The read and writ callbacks return 1
(stop after success), 0 (continue) or -1 (stop after failure).

The project has five files:

- `bits.dfy` (module `Bits`) writes out the C operators `<<`, `>>`, `|` and `&`
  on non-negative integers. `<<` is multiplication by a power of two; `>>`,
  `|` and `&` recurse one bit at a time. It proves that `|` keeps every bit
  of both operands, and that `|` is `+` when the low operand fits below the
  shift. It proves that `>> n` and
  `& (2^n - 1)` recover both packed parts, and that every integer is the
  packing of its own two parts.
- `astream_codes.dfy` (module `AStreamCodes`) holds:
  - the stream and filter types, with decoders that invert them;
  - the 8-bit `type` bit-field of the stream struct;
  - the three macros;
  - the decoders `CodeType` (`>> 16`), `CodeIndex` (`& 0xFFFF`), `FilterCodeType` and `FilterCodeIndex` (`>> 8` and `& 0xFF` on the low 16 bits).

  Its lemmas cover round trips, injectivity and namespace separation. They
  also exhibit the collisions that appear once the bounds are dropped.
- `astream_tables.dfy` (module `AStreamTables`) holds the command and state
  tables as datatypes. Each table has its integer values, built as the
  header builds them, and a decoder from integers. The lemmas show that each
  constant lies in the namespace its name gives it and that no two
  constants share a value.
- `astream_status.dfy` (module `AStreamStatus`) holds the two tri-state
  conventions. Each is a datatype with an exact round trip to `-1 .. 1`.
- `options.dfy` (module `Options`) holds the `Option` type the decoders return.

Integers are unbounded in the model. The header's bounds are explicit
preconditions:

- a command or state index must stay below 2^16;
- a filter type and a filter index must each stay below 2^8;
- a stream type must fit the 8-bit `type` field.

Without these bounds an index spills into the type bits, so two different
pairs give the same code. `CtrlCollidesWithoutBound` and
`CtrlFltrCollidesWithoutBound` exhibit such collisions.

The header only encodes, so the decoders are not taken from it. They are the
inverse that the namespacing relies on.

Only the read and writ callbacks use the three-way signal
(src/stream/astream.h:143, 156). The open, seek and sync callbacks return a
boolean (src/stream/astream.h:130, 167, 178), so `Verdict` covers only read
and writ.

## Model

| member | source | states |
|---|---|---|
| `Bits.BitOr` | src/stream/astream.h:41 | the macro's bitwise OR is at least each operand and at most their sum |
| `Bits.AndSelf` | src/stream/astream.h:41 | masking a value with itself leaves it unchanged |
| `Bits.OrKeepsBits` | src/stream/astream.h:41 | the bitwise OR keeps every bit of both operands: masking the result with either operand gives that operand back |
| `Bits.OrOfDisjoint` | src/stream/astream.h:41 | when `lo < 2^n`, the bitwise OR of `hi << n` and `lo` equals `hi * 2^n + lo` |
| `Bits.ShiftRightIsDiv` | src/stream/astream.h:41 | a right shift by n bits is division by 2^n |
| `Bits.LowIsMod` | src/stream/astream.h:41 | masking with the n low bits keeps exactly the remainder modulo 2^n |
| `Bits.PackIsSum` | src/stream/astream.h:41 | the shift-and-OR packing is `hi * 2^n + lo` whenever `lo < 2^n` |
| `Bits.UnpackPack` | src/stream/astream.h:41 | for `lo < 2^n`, `>> n` and `& (2^n - 1)` of the packing give back `hi` and `lo` |
| `Bits.PackUnpack` | src/stream/astream.h:41 | every integer is the packing of its own high and low parts, and its low part is below 2^n |
| `Bits.PackInjective` | src/stream/astream.h:41 | two pairs with low parts below 2^n that pack to the same integer are the same pair |
| `Bits.PackBound` | src/stream/astream.h:41 | a packing whose high part is below 2^m stays below 2^(n+m) |
| `AStreamCodes.TypeValue` | src/stream/astream.h:52-60 | each stream type tag is one of 0..4 |
| `AStreamCodes.TypeOf` | src/stream/astream.h:52-60 | an integer names a stream type exactly when it is 0..4, and the named type has that integer |
| `AStreamCodes.TypeRoundTrip` | src/stream/astream.h:52-60 | every stream type is recovered from its tag |
| `AStreamCodes.FilterValue` | src/stream/astream.h:63-70 | each filter type is one of 0..3 |
| `AStreamCodes.FilterOf` | src/stream/astream.h:63-70 | an integer names a filter type exactly when it is 0..3, and the named type has that integer |
| `AStreamCodes.FilterRoundTrip` | src/stream/astream.h:63-70 | every filter type is recovered from its number |
| `AStreamCodes.StoreTypeField` | src/stream/astream.h:188 | a value stored in the 8-bit `type` field reads back below 256, and unchanged when it was already below 256 |
| `AStreamCodes.TypeFitsField` | src/stream/astream.h:188 | every stream type survives storage in the 8-bit `type` field and decodes back to itself |
| `AStreamCodes.FilterFitsSlot` | src/stream/astream.h:42 | every filter type fits the 8-bit filter slot of a filter command |
| `AStreamCodes.Ctrl` | src/stream/astream.h:41 | for `ctrl <= 0xFFFF`, `TB_ASTREAM_CTRL(type, ctrl)` is `type * 65536 + ctrl` |
| `AStreamCodes.CtrlFltr` | src/stream/astream.h:42 | a filter command is never below the FLTR block (4 * 65536), and with both parts at most 0xFF it is `4 * 65536 + filtertype * 256 + ctrl` |
| `AStreamCodes.State` | src/stream/astream.h:45 | for `state <= 0xFFFF`, `TB_ASTREAM_STATE(type, state)` is `type * 65536 + state` |
| `AStreamCodes.CodeType` | src/stream/astream.h:41 | the decoded stream type, `code >> 16`, is the quotient of the code by 65536 |
| `AStreamCodes.CodeIndex` | src/stream/astream.h:41 | the decoded per-type index, `code & 0xFFFF`, is the remainder of the code modulo 65536, so at most 0xFFFF |
| `AStreamCodes.FilterCodeType` | src/stream/astream.h:42 | the decoded filter type is the per-type index divided by 256, so at most 0xFF |
| `AStreamCodes.FilterCodeIndex` | src/stream/astream.h:42 | the decoded per-filter index is the per-type index modulo 256, so at most 0xFF |
| `AStreamCodes.CtrlDecode` | src/stream/astream.h:41 | for `ctrl <= 0xFFFF`, decoding a command gives back `(type, ctrl)` |
| `AStreamCodes.CtrlEncodeDecoded` | src/stream/astream.h:41 | every integer is the command built from its own decoded type and index |
| `AStreamCodes.CtrlInjective` | src/stream/astream.h:41 | distinct `(type, ctrl)` pairs with `ctrl <= 0xFFFF` never give the same command |
| `AStreamCodes.CtrlCollidesWithoutBound` | src/stream/astream.h:41 | without the index bound, index 65537 of NONE and index 1 of FILE give the same command |
| `AStreamCodes.CtrlFitsInt` | src/stream/astream.h:41 | a command whose type fits the 8-bit field and whose index is at most 0xFFFF is below 2^24, inside a C `int` |
| `AStreamCodes.FilterIndexFits` | src/stream/astream.h:42 | the nested filter index, `filtertype << 8` OR `ctrl` with both parts below 256, fits the 16-bit outer index |
| `AStreamCodes.CtrlFltrDecode` | src/stream/astream.h:42 | a filter command with both parts below 256 decodes to type FLTR (4), then to its filter type and index |
| `AStreamCodes.CtrlFltrInjective` | src/stream/astream.h:42 | distinct `(filtertype, ctrl)` pairs below 256 never give the same filter command |
| `AStreamCodes.CtrlFltrApart` | src/stream/astream.h:42 | when all indices are within their bounds (filter type and filter index ≤ 0xFF, outer index ≤ 0xFFFF), a filter command never equals a command of any namespace other than FLTR |
| `AStreamCodes.CtrlFltrCollidesWithoutBound` | src/stream/astream.h:42 | without the filter bound, index 256 of filter 0 and index 0 of filter 1 give the same command |
| `AStreamCodes.StateIsCtrl` | src/stream/astream.h:45 | `TB_ASTREAM_STATE` packs exactly as `TB_ASTREAM_CTRL` does |
| `AStreamCodes.StateDecode` | src/stream/astream.h:45 | for `state <= 0xFFFF`, decoding a state code gives back `(type, state)` |
| `AStreamTables.CommandValue` | src/stream/astream.h:73-101 | every command's integer, CTRL_NONE's literal 0 included, is `TB_ASTREAM_CTRL` of its namespace and its index |
| `AStreamTables.CommandNamespace` | src/stream/astream.h:73-101 | every command belongs to NONE, FILE or SOCK: the header declares no HTTP or FLTR commands |
| `AStreamTables.CommandIndex` | src/stream/astream.h:75-98 | each command's index is at most 10, and only CTRL_NONE has index 0 |
| `AStreamTables.CommandAt` | src/stream/astream.h:73-101 | a command found at `(type, index)` belongs to that namespace and has that index |
| `AStreamTables.CommandDecode` | src/stream/astream.h:78-98 | a generic command decodes to NONE, a file command to FILE (1) and a socket command to SOCK (2), each with its index |
| `AStreamTables.CommandOf` | src/stream/astream.h:73-101 | a command found for an integer has exactly that integer as its value |
| `AStreamTables.CommandOfValue` | src/stream/astream.h:73-101 | every command is found again from its integer |
| `AStreamTables.CommandAtIndex` | src/stream/astream.h:73-101 | looking a command up by its namespace and index finds that command |
| `AStreamTables.CommandValueInjective` | src/stream/astream.h:73-101 | no generic, file or socket command has the same integer as another |
| `AStreamTables.GenericCommandValues` | src/stream/astream.h:78-88 | GET_URL .. SET_TIMEOUT are 1 .. 10 |
| `AStreamTables.CommandRanges` | src/stream/astream.h:78-98 | generic commands are at most 0xFFFF; file commands lie in 0x10001..0x1FFFF and socket commands in 0x20001..0x2FFFF |
| `AStreamTables.StateValue` | src/stream/astream.h:104-115 | every state's integer, the literals 0..2 included, is `TB_ASTREAM_STATE` of its namespace and its index |
| `AStreamTables.StateNamespace` | src/stream/astream.h:104-115 | every state belongs to NONE or SOCK |
| `AStreamTables.StateIndex` | src/stream/astream.h:104-115 | each state's index is at most 4, and socket states start at index 1 |
| `AStreamTables.StateAt` | src/stream/astream.h:104-115 | a state found at `(type, index)` belongs to that namespace and has that index |
| `AStreamTables.StateCodeDecode` | src/stream/astream.h:104-115 | every state decodes to its namespace and its index |
| `AStreamTables.StateOf` | src/stream/astream.h:104-115 | a state found for an integer has exactly that integer as its value |
| `AStreamTables.StateOfValue` | src/stream/astream.h:104-115 | every state is found again from its integer |
| `AStreamTables.StateAtIndex` | src/stream/astream.h:104-115 | looking a state up by its namespace and index finds that state |
| `AStreamTables.StateValueInjective` | src/stream/astream.h:104-115 | no two states share an integer |
| `AStreamTables.SockStatesDecode` | src/stream/astream.h:110-113 | DNS_FAILED, CONNECT_FAILED, CONNECT_TIMEOUT and SSL_FAILED decode to (SOCK = 2, 1..4) |
| `AStreamTables.GenericStatesApart` | src/stream/astream.h:106-113 | OK, CLOSED and UNKNOWN_ERROR equal their indices 0..2 and lie below every socket state |
| `AStreamTables.OnlyOkIsZero` | src/stream/astream.h:106 | a state's code is 0 exactly when it is OK |
| `AStreamStatus.IssueValue` | src/stream/astream.h:335-376 | every outcome of open/read/writ/seek/sync is reported as an integer in -1..1 |
| `AStreamStatus.IssueOf` | src/stream/astream.h:335-376 | a return value names an outcome exactly when it is in -1..1, and the outcome maps back to it |
| `AStreamStatus.IssueRoundTrip` | src/stream/astream.h:335-376 | 1 is done, 0 is pending and -1 is failed, each read back as itself |
| `AStreamStatus.VerdictValue` | src/stream/astream.h:143-156 | every read or writ callback verdict is an integer in -1..1 |
| `AStreamStatus.VerdictOf` | src/stream/astream.h:143-156 | a callback's return value names a verdict exactly when it is in -1..1, and the verdict maps back to it |
| `AStreamStatus.VerdictRoundTrip` | src/stream/astream.h:143-156 | 1 is stop after success, 0 is continue and -1 is stop after failure, each read back as itself |
| `AStreamStatus.ConventionsAgree` | src/stream/astream.h:143-156 | the callback signal uses the same three integers as the result of open/read/writ/seek/sync, in the same order |

## Left out

- The entry points open, read, writ, seek, sync, size, kill, exit and ctrl, and the `init_*` constructors (src/stream/astream.h:244-409): the header only declares them, so their behaviour is not visible.
- The `bopened` and `bidled` flags, the `offset` field and the spinlock (src/stream/astream.h:190-209): their updates are not visible, and the lock serves concurrency.
- The completion port `aicp`, the callback table and asynchronous completion delivery (src/stream/astream.h:117-182): I/O plumbing and concurrency. Only the integer conventions of the callbacks are modelled.
- URL parsing (`tb_url_t`): `network/url.h` is not part of this model.
- The variadic arguments of `ctrl`: `va_list` handling has no visible implementation.
- Integer width: the model computes on unbounded integers. The C width enters only as bounds: the 8-bit `type` field (`StoreTypeField`, `TypeFitsField`) and the fit of every command inside a C `int` (`CtrlFitsInt`). Shifts that overflow C `int` are not modelled, because no constant of the header comes near that.

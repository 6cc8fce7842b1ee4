# mgba-mcp in Dafny

A model of the core of mgba-mcp. mgba-mcp is an MCP server that runs Game Boy ROMs in a headless
mGBA emulator and gives the results to a client. The model has two parts.

**The ROM-analysis and display tools** of `call_tool` (`src/mgba_mcp/server.py`):

- **The LR35902 disassembler** (`Opcodes`, `Disasm`).
  - It uses the 256-entry opcode table.
  - It makes a linear sweep that advances by the instruction size, or by one byte when the operands
    run past the end of the buffer.
  - `DisassembleLr35902` is the loop, proved to print exactly `Render(Disassembly(..))`.
- **The byte search** (`HexPattern`, `Search`).
  - The pattern is cleaned with `replace(" ", "")` and `upper()`, then parsed by `bytes.fromhex`.
  - `upper()` follows Python's full case mapping where it can produce ASCII: the ligature "ﬀ" becomes
    "FF", so it parses as the byte 0xFF.
  - `fromhex` refuses a non-ASCII character at its own position, before looking at any digit.
  - The search repeats `find`, restarting one byte after each hit, so hits can overlap.
  - Results stop at `max_results`.
  - Each hit is printed with up to eight bytes of context on each side.
  - `SearchBytes` is the loop, proved to return the first `max_results` of `Occurrences`.
- **The `xxd` dump** (`Dump`).
  - The read is capped at 4096 bytes.
  - Each line holds 16 bytes, with an address column, a hex column padded to 48 characters and an
    ASCII column.
  - The disassembly can be printed instead of the dump.
- **The display of memory ranges, OAM sprites and entity tables** (`Display`).
  - A header comes first.
  - Then there is one line per 16 bytes of a range, one row per visible sprite, and one row per
    entity that has a non-zero byte.

**The emulator session** of `MGBAEmulator._run_with_lua` (`src/mgba_mcp/emulator.py`), in `Session`:

- The class `MGBAEmulator` keeps the temporary directory's files as a map and everything it does to
  the outside world as an action log.
- `RunWithLua` goes through these steps:
  1. resolves the paths;
  2. resets the workspace;
  3. builds the command line;
  4. launches the process;
  5. polls until the `DONE` marker appears, the process exits or the timeout passes;
  6. kills the process tree in three steps, each of which tolerates a vanished process or a refused
     signal;
  7. collects the outputs and classifies the run.
- It is proved equal to the specification function `RunSpec`.
- The operating system is a parameter (`Environment`). It gives:
  - whether the launch fails;
  - one observation per poll (the files written, the elapsed time, whether the process exited);
  - the files written between the last poll and the kill;
  - the outcome of each kill step;
  - the JSON parser.
- `EmulatorResult` (`emulator.py:18-25`) is the datatype `Session.EmulatorResult`.

**The records the canned Lua scripts write** (`Records`): the memory-read keys, a memory range, the
40 OAM slots and the entity table, as functions of the emulated memory.

`Text` holds the Python formatting these rely on, among them `format(n, "0wX")`, `"{:3d}"`, `"<w"`,
`str.join`, `in` and `str.replace`. `Wrappers` holds `Option` and `Result`.

Where the project's own design description and its code differ, the model follows the code:

- The kill routine swallows only `ProcessLookupError` and `PermissionError`.
  - Any other error escapes to the run's `except Exception` and fails the run (`KillEscape`).
  - The failure is not swallowed.
- The process is not killed on every exit path.
  - When the launch fails, the kill routine never runs (`KillOnce`).
- After the marker is seen, the code only sleeps 0.1 s.
  - There is no size-stability recheck of the screenshot.
- An `output.json` that cannot be decoded as text raises something other than a `JSONDecodeError`.
  - It fails the whole run instead of counting as absent (`Collect`).
- The poll loop checks the time first, at the loop head, then the marker, then the process.

## Model

| member | source | states |
|---|---|---|
| Opcodes.LookupDefinesEveryByte | src/mgba_mcp/server.py:265-330 | every byte value 0..255 is a key of the opcode table, with a size of 1, 2 or 3 |
| Disasm.DbFallbackUnreachable | src/mgba_mcp/server.py:341-369 | with the LR35902 table, the instruction at any offset carries its opcode's mnemonic, so the `DB` branch is never taken |
| Disasm.Signed8 | src/mgba_mcp/server.py:352 | the relative-jump operand is a number in -128..127 that is congruent to the byte modulo 256 |
| Disasm.DecodeAt | src/mgba_mcp/server.py:339-363 | one decoding step covers 1 to 3 bytes, all inside the buffer |
| Disasm.SubstituteCases | src/mgba_mcp/server.py:349-355 | a two-byte template with "n" but not "nn" gets the `JR` target in 4 digits when it names `JR`, otherwise the operand in 2 digits; any other template is left as is |
| Disasm.FormatLine | src/mgba_mcp/server.py:338-369 | one iteration prints exactly the rendering of the decoded instruction (or the `DB` line for an unknown opcode) and returns its size, or 1 when the operands are cut off |
| Disasm.DisassembleLr35902 | src/mgba_mcp/server.py:333-371 | the loop's lines are exactly the rendering of the linear-sweep disassembly of the buffer |
| Disasm.DecodeAtStep | src/mgba_mcp/server.py:345-366 | a line sits at base + i and shows the bytes it consumes; it consumes the opcode's size when all operands are present, 1 byte otherwise |
| Disasm.DisasmConsumesAll | src/mgba_mcp/server.py:337-366 | the hex columns of all lines, concatenated, are exactly the bytes of the buffer: the sweep ends and consumes every byte once |
| Disasm.DisasmAddresses | src/mgba_mcp/server.py:338-366 | the first line is at the base address, each next address is the previous one plus its size, and all lie in [base, base + len) |
| Disasm.DisasmAddressesIncrease | src/mgba_mcp/server.py:338-366 | line addresses strictly increase |
| Disasm.DisasmLineCount | src/mgba_mcp/server.py:337-369 | the number of lines lies between ⌈len/3⌉ and len |
| Disasm.WordLittleEndian | src/mgba_mcp/server.py:357-358 | the 16-bit operand is below 0x10000, with the first operand byte as its low byte and the second as its high byte |
| Disasm.WordIsShiftOr | src/mgba_mcp/server.py:358 | `(hi << 8) \| lo` equals hi * 256 + lo for bytes |
| Disasm.OperandPrinting | src/mgba_mcp/server.py:357-360 | a three-byte operand is printed as exactly four hex digits that read back as hi * 256 + lo |
| Disasm.JrTargetRange | src/mgba_mcp/server.py:350-353 | a JR target is addr + 2 plus the operand below 128, or plus the operand - 256 otherwise, so it lies within -128..127 of addr + 2 |
| HexPattern.UpperOf | src/mgba_mcp/server.py:565 | `upper()` of one character is one to three characters; an ASCII character is upper-cased in place |
| HexPattern.Upper | src/mgba_mcp/server.py:565 | `upper()` never shortens a text and at most triples it |
| HexPattern.UpperAscii | src/mgba_mcp/server.py:565 | on ASCII text `upper()` keeps the length and upper-cases each letter in place |
| HexPattern.FirstNonAscii | src/mgba_mcp/server.py:571 | the position `fromhex` reports for a non-ASCII text: every character before it is ASCII, the one at it is not |
| HexPattern.EncodeHexRoundTrip | src/mgba_mcp/server.py:571 | `fromhex` of the two-digit-per-byte spelling of a byte string gives back that byte string |
| HexPattern.HexBytesRoundTrip | src/mgba_mcp/server.py:571 | `fromhex` also reads back the space-separated spelling the dump tools print |
| HexPattern.StripSpacesOfHexBytes | src/mgba_mcp/server.py:565 | removing the spaces from the printed spelling leaves the two-digit-per-byte spelling |
| HexPattern.ParsePrintedBytes | src/mgba_mcp/server.py:565-571 | bytes copied from a dump and pasted as a pattern parse back to the same bytes, and the echoed pattern is their canonical spelling |
| HexPattern.FromHexSound | src/mgba_mcp/server.py:571 | whatever `fromhex` accepts is, without its whitespace and upper-cased, the canonical spelling of the bytes it returns |
| HexPattern.AcceptedShape | src/mgba_mcp/server.py:571 | what `fromhex` accepts is, without its whitespace, an even number of hexadecimal digits |
| HexPattern.AcceptsDigitPairs | src/mgba_mcp/server.py:571 | an even number of hexadecimal digits without whitespace is accepted, one byte per pair |
| HexPattern.RejectsBadPatterns | src/mgba_mcp/server.py:565-571 | a pattern whose cleaned text (spaces removed, fully upper-cased) holds a character that is neither a hex digit nor whitespace, non-ASCII ones included, or an odd number of digits, fails to parse |
| HexPattern.ParsePatternIff | src/mgba_mcp/server.py:565-571 | for a cleaned pattern without whitespace, parsing succeeds exactly when it is an even number of hex digits, and then gives one byte per pair |
| HexPattern.UpperCaseExamples | src/mgba_mcp/server.py:565-571 | example: "ﬀ" parses as the byte 0xFF; "0g" followed by "é" fails at position 2, the non-ASCII character |
| Search.PySlice | src/mgba_mcp/server.py:594 | a Python slice is never longer than the sequence |
| Search.FindFromIsFirst | src/mgba_mcp/server.py:580-582 | `find` returns -1 exactly when no occurrence is left; otherwise it returns the first one, and the others follow from one byte on |
| Search.SearchBytes | src/mgba_mcp/server.py:577-584 | the search loop returns the first `max_results` occurrences at or after the (normalised) start offset |
| Search.OccurrencesExact | src/mgba_mcp/server.py:577-584 | an offset is listed exactly when it is at or after the start and the pattern occurs there |
| Search.OccurrencesAscending | src/mgba_mcp/server.py:577-584 | the occurrences are strictly ascending and none lies before the start |
| Search.SearchResultsSpec | src/mgba_mcp/server.py:577-584 | results are strictly ascending, true occurrences, at or after `start_offset`, at most `max_results`, and every occurrence when fewer were found |
| Search.OverlappingHits | src/mgba_mcp/server.py:577-584 | for any two occurrences at or after the start where the later begins inside the earlier, both are occurrences found by the scan; the earlier is reported whenever the later is, and both are when fewer than `max_results` were found |
| Search.OverlapExample | src/mgba_mcp/server.py:577-584 | example: 01 01 is found in 01 01 01 at 0 and at 1 |
| Search.ContextWindow | src/mgba_mcp/server.py:592-594 | the context window lies inside the buffer, contains the hit, and extends min(8, room) bytes on each side |
| Search.ContextLines | src/mgba_mcp/server.py:590-596 | one context line per result |
| Search.ReportShape | src/mgba_mcp/server.py:586-596 | the report has three header lines, then one line per hit; "(limited to …)" appears exactly when `max_results` hits were found |
| Search.SearchTool | src/mgba_mcp/server.py:563-602 | the tool text is "Invalid hex pattern: " with the parse error or with a `ValueError` from reading the file, "Error: " with any other read error, or the report of the first `max_results` occurrences |
| Search.BadPatternReported | src/mgba_mcp/server.py:569-600 | a pattern that fails to parse gives "Invalid hex pattern: …" whatever the file holds |
| Search.ReadErrorReported | src/mgba_mcp/server.py:569-602 | with a valid pattern, a `ValueError` from reading the file is reported as "Invalid hex pattern: " and its text, any other exception as "Error: " and its text; the first prefix appears exactly for a `ValueError` |
| Dump.DumpLength | src/mgba_mcp/server.py:536 | the intended cap: the length read is between 0 and 4096, equal to the request within that range |
| Dump.NegativeLengthBypassesCap | src/mgba_mcp/server.py:536-542 | as written, a length of -1 passes `min(length, 4096)` and reads a 5000-byte file whole |
| Dump.CappedRead | src/mgba_mcp/server.py:536-542 | from a non-negative offset, the capped read succeeds and returns the contiguous run of at most 4096 bytes at the offset, cut short only by the end of the file |
| Dump.NegativeOffsetFails | src/mgba_mcp/server.py:541 | a negative offset is an invalid seek |
| Dump.AsciiColumnSpec | src/mgba_mcp/server.py:556 | bytes 32..126 are shown as themselves, others as '.', one character per byte, all printable |
| Dump.HexDump | src/mgba_mcp/server.py:552-557 | the dump loop's lines are exactly one line per 16-byte chunk, the chunk at i printed at offset + i |
| Dump.DumpLineLayout | src/mgba_mcp/server.py:557 | a line is 8 address digits reading back as the address, ": ", the hex column padded to 48, two spaces, and the ASCII column |
| Dump.DumpLineCount | src/mgba_mcp/server.py:552 | there are ⌈len/16⌉ dump lines |
| Dump.DumpLineAt | src/mgba_mcp/server.py:552-557 | line k shows the chunk at 16k at address offset + 16k |
| Dump.ChunksCover | src/mgba_mcp/server.py:552-554 | the chunks, concatenated, are exactly the bytes read |
| Dump.XxdTool | src/mgba_mcp/server.py:533-561 | the tool text is the error, or the header, a blank line and the dump or disassembly of the bytes read under the cap |
| Dump.DumpNeverExceedsCap | src/mgba_mcp/server.py:536-557 | a successful dump shows at most 4096 bytes in at most 256 lines |
| Display.RangeLines | src/mgba_mcp/server.py:431-439 | the range display is its header, then one line per 16 bytes |
| Display.RangeLineCount | src/mgba_mcp/server.py:436-439 | there are ⌈len/16⌉ lines after the header |
| Display.RangeLineAt | src/mgba_mcp/server.py:436-439 | line k shows the 16 bytes at offset 16k under address start + 16k |
| Display.RangeOfMemory | src/mgba_mcp/server.py:432-435 | for a range the script read, the header names start and start + length - 1 and there are ⌈length/16⌉ lines |
| Display.OamLines | src/mgba_mcp/server.py:457-467 | the OAM display is the three header lines, then the rows of the visible sprites in slot order |
| Display.VisibleRowsFilter | src/mgba_mcp/server.py:462-467 | every visible sprite's row is printed, every printed row belongs to a visible sprite, and there are no more rows than sprites |
| Display.NoVisibleSprites | src/mgba_mcp/server.py:459-467 | with no visible sprite, only the header is printed |
| Display.OamDisplayOfMemory | src/mgba_mcp/server.py:462-467 | slot s of the memory read is printed exactly when 0 < y < 160 for the byte at 0xFE00 + 4s |
| Display.SpriteRowNamesSlot | src/mgba_mcp/server.py:465 | rows of different slots differ, because a row starts with its slot number |
| Display.Dec3Digits | src/mgba_mcp/server.py:465 | `{n:3d}` of a number below 1000 is its three digits, with blanks for leading zeros |
| Display.First16 | src/mgba_mcp/server.py:495 | `bytes_data[:16]` is the prefix of at most 16 bytes, and the whole list when it is no longer |
| Display.EntityLines | src/mgba_mcp/server.py:488-496 | the entity display is the boss flag, the heading, then the rows of the entities with a non-zero byte, in order |
| Display.ActiveRowsFilter | src/mgba_mcp/server.py:491-496 | an entity has a row exactly when one of its bytes is non-zero |
| Display.AllZeroEntities | src/mgba_mcp/server.py:489-496 | an all-zero table prints only the boss flag and the heading |
| Records.MemoryRecord | src/mgba_mcp/emulator.py:218-221 | one entry per address asked for |
| Records.MemoryKeyRoundTrip | src/mgba_mcp/emulator.py:220 | a key is "0x" and hex digits that read back as the address, six characters for addresses below 0x10000 |
| Records.MemoryKeyInjective | src/mgba_mcp/emulator.py:218-221 | distinct addresses get distinct keys |
| Records.MemoryRecordEntries | src/mgba_mcp/emulator.py:218-221 | entry i pairs the key of address i with the byte at it |
| Records.RangeRecordContents | src/mgba_mcp/emulator.py:251-255 | a range of non-positive length is empty; otherwise byte i is the memory at start + i |
| Records.OamLayout | src/mgba_mcp/emulator.py:284-294 | exactly 40 slots; slot s reads y, x, tile and flags from 0xFE00 + 4s .. +3, its palette is flags % 8 and it is visible exactly when 0 < y < 160 |
| Records.OamCoversTable | src/mgba_mcp/emulator.py:284-285 | every address of 0xFE00..0xFE9F is byte (a - 0xFE00) % 4 of slot (a - 0xFE00) / 4 |
| Records.EntityLayout | src/mgba_mcp/emulator.py:327-335 | the boss flag is the byte at 0xFFBF; there are max(count, 0) entities, entity k at base + k * size holding the max(size, 0) bytes from there |
| Records.EntitiesContiguous | src/mgba_mcp/emulator.py:328-335 | the entity bytes, read in order, are the count * size contiguous bytes from the base |
| Text.FormatHexRoundTrip | src/mgba_mcp/server.py:365 | `format(n, "0wX")` of a non-negative number reads back as n |
| Text.FormatHexWidth | src/mgba_mcp/server.py:365 | a number below 16^w is printed with exactly w upper-case digits |
| Text.HexBytesLength | src/mgba_mcp/server.py:438 | n bytes joined by spaces take 3n - 1 characters |
| Session.MGBAEmulator.constructor | src/mgba_mcp/emulator.py:35-39 | keeps the binary, the xvfb choice and the temporary directory; the marker constant is "MGBA_SCRIPT_DONE" |
| Session.MGBAEmulator.ResetWorkspace | src/mgba_mcp/emulator.py:78-89 | the workspace becomes `Reset` of the old one, and the log gains the removals of the files that existed and then the script write |
| Session.MGBAEmulator.UnlinkEach | src/mgba_mcp/emulator.py:82-85 | each listed file that exists is removed, in order, and each removal is logged |
| Session.MGBAEmulator.BuildCommand | src/mgba_mcp/emulator.py:92-101 | the extended command list equals `Command(..)` |
| Session.MGBAEmulator.Watch | src/mgba_mcp/emulator.py:118-133 | the poll loop stops where `WatchFrom` does, for its reason, with its files, and logs one sleep per poll that went on and one after the marker |
| Session.MGBAEmulator.KillProcessTree | src/mgba_mcp/emulator.py:41-60 | logs the attempted kill steps and lets escape the first error that is not swallowed; files are unchanged |
| Session.MGBAEmulator.RunWithLua | src/mgba_mcp/emulator.py:62-170 | result, workspace and log are those of `RunSpec` |
| Session.MGBAEmulator.Supervise | src/mgba_mcp/emulator.py:118-164 | from the launch on, result, workspace and log are those of `Supervised` |
| Session.ResetClears | src/mgba_mcp/emulator.py:78-89 | after the reset there is no `DONE`, `screenshot.png` or `output.json`; the script holds the new text and all other files are unchanged |
| Session.PreviousUnlinked | src/mgba_mcp/emulator.py:82-85 | the loop removes exactly the screenshot and the output, each logged when it existed |
| Session.ResetActionsExact | src/mgba_mcp/emulator.py:78-89 | a file is removed exactly when it is one of the three outputs and exists; the script write comes last |
| Session.CommandLayout | src/mgba_mcp/emulator.py:92-101 | the command is `xvfb-run -a` exactly when requested, then the binary and the ROM, then `-t <savestate>` exactly when a non-empty savestate is given, then `--script <script> -l 0` |
| Session.ResolveAbsolute | src/mgba_mcp/emulator.py:73-76 | resolved paths are absolute when the working directory is, and an absolute path is kept |
| Session.WatchStopsFirst | src/mgba_mcp/emulator.py:122-133 | the watch stops at the first poll where the time is up, the marker exists or the process exited, checked in that order; before that poll, none held |
| Session.WatchWithinTimeout | src/mgba_mcp/emulator.py:122 | every poll before the stopping one was within the timeout |
| Session.KillOrder | src/mgba_mcp/emulator.py:41-60 | without an escaping error the steps are SIGTERM to the group, the grace sleep exactly when it got through, SIGKILL to the group, then a direct kill |
| Session.KillStopsOnFailure | src/mgba_mcp/emulator.py:41-60 | an error that is not swallowed ends the routine at its step; nothing escapes exactly when no step fails otherwise |
| Session.MalformedIsAbsent | src/mgba_mcp/emulator.py:146-151 | a malformed `output.json` is collected as if it were missing |
| Session.ClassifySuccess | src/mgba_mcp/emulator.py:153-164 | success exactly when the screenshot is non-empty, the data is truthy or the marker exists; a failure names the timeout and has no data |
| Session.MarkerAloneSucceeds | src/mgba_mcp/emulator.py:154 | the marker alone gives success; an empty screenshot with an empty JSON object does not |
| Session.KillOnce | src/mgba_mcp/emulator.py:103-136 | SIGTERM is sent exactly once after a launch, whatever stopped the watch; if the launch fails it is never sent and the launch error is the result |
| Session.SuperviseTermOnce | src/mgba_mcp/emulator.py:118-136 | after the launch, SIGTERM is sent exactly once |
| Session.KillAfterWatch | src/mgba_mcp/emulator.py:78-136 | a launched run logs the reset, the launch, then only the poll sleeps, then the kill routine; its SIGTERM comes after the launch and every poll sleep and is the only one |
| Session.RunResult | src/mgba_mcp/emulator.py:103-168 | a run succeeds exactly when the launch works, no kill error escapes, the outputs can be read and something was produced; otherwise the error is the launch error, the kill error, the decoding error or the timeout message, in that order; a success carries the collected screenshot and data |
| Session.OutputsAreFresh | src/mgba_mcp/emulator.py:78-154 | every marker or output present at the end was written during this run, at a poll the watch saw or just before the kill |
| Session.SuccessNeedsOutput | src/mgba_mcp/emulator.py:139-159 | a successful run was launched, had no escaping kill error, and left a marker, a screenshot or an output file |
| Session.SuccessWithoutDataReportsNone | src/mgba_mcp/server.py:457-476 | a run that succeeded only through its marker or screenshot is displayed as "Error: None" |
| Session.FailureReported | src/mgba_mcp/server.py:447-448 | a failed run is displayed as "Error: " followed by its error text |

## Left out

- Processes, signals, the clock and files are parameters, not effects:
  - `subprocess.Popen`, `os.killpg`, `proc.kill`, `time.sleep`, `time.time`, `tempfile` and `shutil` become an `Environment` and an action log;
  - the `SDL_AUDIODRIVER` environment and the pipes are not modelled.
- `Ends` and `Admissible` require the poll observations to reach the timeout. A finite sequence of observations cannot describe a clock that never advances.
- An exception raised while the workspace is reset or the script is written is not modelled. These steps run before the `try` and would propagate to the caller.
- An exception raised inside the poll loop is not modelled. The loop's file and process checks are observations.
- The Lua runtime and the emulator are left out. `Records` gives the values the scripts write, not the JSON text they print.
- The displays of `mgba_run`, `mgba_read_memory` and `mgba_run_lua` are not part of this model (`src/mgba_mcp/server.py:388-397`, `407-420`, `515-531`):
  - `mgba_run` prints a success line or the error;
  - `mgba_read_memory` prints "Memory dump:" and one line per address with the value in two hex digits and in decimal;
  - `mgba_run_lua` prints the data as `json.dumps(..., indent=2)` text, which needs a JSON printer.
- The wrappers `run_frames`, `read_memory`, `run_lua_script` and `cleanup` of `MGBAEmulator` are not part of this model. They build the script text and call `_run_with_lua` or remove the directory; `Records` gives the values their scripts write.
- MCP plumbing is not part of this model: the tool schemas, `TextContent`/`ImageContent`, base64 and the server loop.
- `json.loads` is a parameter, and JSON floats are reals.
  - Truthy: a NaN from `json.loads` (truthy in Python) has no counterpart.
- `Path(..).name` of the ROM and the text of file-opening errors are parameters.
- The script text is kept as bytes. Its text encoding by `write_text` is not modelled.
- Resolve: makes a relative path absolute by joining it to the working directory. It does not normalise `..` or follow symbolic links as `Path.resolve` does.
- UpperOf: writes out `upper()` for ASCII and for the seventeen other characters whose upper case holds an ASCII character (such as "ß" and the ligatures U+FB00 to U+FB06); any other character is kept as it is. Python upper-cases some of those ("é" to "É"), so the echoed pattern can differ. Whether the pattern parses and the position reported cannot, because both spellings hold no ASCII character.
- The exceptions raised while reading the searched file are told apart only by whether they are a `ValueError` (`ReadError`); their message texts are parameters.
- MemoryKey: addresses are non-negative; the printing of negative addresses is not modelled.
- XxdTool: follows the intended 0..4096 cap (`DumpLength`) instead of `min(length, 4096)` as written; see Findings.
- The empty search pattern is modelled as Python handles it: it matches at every offset from the start to the end of the file.

## Findings

| source | as written | input that shows it | evidently intended | confidence | as-written member | corrected member |
|---|---|---|---|---|---|---|
| src/mgba_mcp/server.py:536-542 | `length = min(arguments.get("length", 256), 4096)` then `f.read(length)` | `length = -1` on a file of 5000 bytes: `min` keeps -1 and `read(-1)` returns all 5000 bytes | the 4 KiB cap holds for every request (length clamped to 0..4096) | not executed | Dump.NegativeLengthBypassesCap | Dump.DumpNeverExceedsCap |

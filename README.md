# HADLoC toolchain core in Dafny

HADLoC is a home-built 8-bit computer. Its Python toolchain assembles text
into machine bytes, runs those bytes on an emulator, and writes them to an
EEPROM over a serial link. This project models the core of that toolchain
in Dafny and proves properties of the model:

- **Instruction encoding** (`CodeWriter`, over the vocabulary in `Assembly`).
  It has the fixed byte table, the load, move, output and ALU encodings, the
  register checks and their errors, and the byte array of `write_code`.
- **Assembler front end**.
  - `Tokens`, `Lexemes` and `AsmTokenizer` model the tokenizer. It reads
    binary, octal, decimal, hexadecimal and character literals, keywords,
    identifiers, registers and symbols, and skips white space and comments.
    The `Tokenizer` class moves a cursor over the text and appends tokens.
  - `AsmParsing` and `AsmParser` model the parser. It builds the label and
    constant tables, evaluates constant expressions and checks operand types.
    It also expands the `ldb`, `ldu` and `lda` pseudo-instructions. The
    `Parser` class mutates its fields the way the source does, and it is
    proved against the step functions of `AsmParsing`.
  - `AsmExpressions` gives constant expressions a meaning independent of
    the parser: a tree of literals, names, brackets, signs and operators,
    its value `Eval`, and the tokens `Spell` writes it as. It proves that
    the parser reads every spelled tree as its value, with the precedence
    and grouping the grammar gives.
- **Emulators**. `Emulator` covers the current `Computer` and its HD44780-style
  `Display`, using 8-, 7- and 4-bit words from `Words`. `LegacyEmulator` covers
  the older integer-only `Computer` and `Display`. `Disassembler` is the
  memory view's disassembler. Each `Computer` is a class with RAM as an array.
  Its `Execute` method is proved equal to a pure one-step function `Step`,
  and lemmas describe `Step` instruction class by instruction class.
- **Text utilities**.
  - `PositionedStrings`, `TextCode` and `CodeObjects` model the strings that
    carry source coordinates, the `Code` and `LinedCode` cursors, and the
    value-carrying `CodeObject`.
  - `CStringText`, `CStringObjects`, `CStringCode` and `CStringLined` model
    the older versions of the same classes in cstring.py.
- **Grammar engine**.
  - `Grammar` gives the match functions of the newer grammar symbols
    (Sequential, Repeated, OneOf, Terminal, and the Optional, ZeroOrMore and
    OneOrMore shorthands). It threads the error offset and message of every
    symbol through the match.
  - `Matching.Matcher` holds those error fields and runs the matches as
    methods over a `TokenLists.TokenList`, whose offset it moves. Each
    method is proved equal to its match function.
  - `SyntaxTree` models the AST node that the matches build.
  - `LegacyGrammar` and `LegacyMatching` do the same for the older grammar
    (Sequential, Repeated, AnyOf, Terminal). They cover its
    `GrammarException` records and the message `compile_error` builds.
- **Writer and file helpers**. `Writer` packs the '0'/'1' characters of a
  text into bytes, most significant bit first, and builds the serial command
  headers and 64-byte write chunks. `FileUtils` gives the extension and
  base-name functions and `verify_file`.

Python's unbounded integers are Dafny `int`s. Bitwise `&`, `|` and `~` on
them are defined exactly in `Bits`. Words of the emulator are bit-vectors,
and addresses are integers below 2^15. Exceptions the source raises are the
`Failure` side of a `Result` (module `Wrappers`):

- `Compiler(kind, message, args)` is a CompilerException of the given kind.
- `FileError(name, message)` is a FileError.
- `Python(name)` is a built-in exception such as IndexError or ValueError.

Floating point, I/O and the curses UI are not modelled.

## Model

| member | source | states |
|---|---|---|
| Assembly.KeywordNamed | assembler/tokenizer.py:12-13 | a word names a mnemonic only if the word is that mnemonic's spelling, and a word that names none differs from every spelling in the `keywords` list |
| Assembly.RegisterNamed | assembler/tokenizer.py:15 | a word names a register only if the word is that register's spelling, and a word that names none differs from every spelling in the `registers` list |
| Assembly.KeywordSpellingReadsBack | assembler/tokenizer.py:12-13 | each keyword spelling reads back as its own mnemonic and is never a register name |
| Assembly.RegisterSpellingReadsBack | assembler/tokenizer.py:15 | each register spelling reads back as its register and is never a keyword |
| CodeWriter.MachineCode | assembler/codewriter.py:24-30 | the byte array has one byte per instruction, and byte i is `instruction_value(instructions[i])`; otherwise it fails with the first instruction's error, or with ValueError from `bytes` when a value is outside 0..255; it encodes `opd` and `opi` with the corrected check of the Finding at assembler/codewriter.py:118, so `opd H` is an Argument error where the program as written emits 0x0E |
| CodeWriter.FixedEncoding | assembler/codewriter.py:88-90 | every mnemonic in the `fixed` table encodes to its table byte, whatever operands follow |
| CodeWriter.FixedBytes | assembler/codewriter.py:64-66 | hlt is 0x00, nop 0x01, icc 0x02, ics 0x03, jcs 0x12 and jis 0x14 |
| CodeWriter.JumpBytes | assembler/codewriter.py:57-66 | the conditional jumps are 0x19 jgt, 0x1A jeq, 0x1B jge, 0x1C jlt, 0x1D jne, 0x1E jle and 0x1F jmp |
| CodeWriter.ArithmeticDispatch | assembler/codewriter.py:124-126 | an ALU mnemonic takes its error or its byte from `arithmetic_value` alone |
| CodeWriter.LoadValue | assembler/codewriter.py:92-93 | a load whose value falls outside a byte is reported as such, so `bytes` can reject it |
| CodeWriter.LoadValueIsPythonOr | assembler/codewriter.py:93 | for 0..255 the byte-level `0x80 \| v` equals Python's integer `0x80 \| v` |
| CodeWriter.LoadByteEncoding | assembler/codewriter.py:92-93 | `ldb v` with 0 <= v <= 127 encodes to 0x80 + v, so the top bit is set and the low seven bits give back v |
| CodeWriter.MoveRejected | assembler/codewriter.py:97-103 | a move into I or out of H gives an Argument error |
| CodeWriter.MoveEncoding | assembler/codewriter.py:105-115 | `mov M M` and `mov Y Y` are nop 0x01; any other move is in 0x20..0x3F with s set iff the destination is M or the source is Y, and with the destination and source register numbers in their fields |
| CodeWriter.MoveFields | assembler/codewriter.py:115 | the fields of `0x20 \| s<<4 \| d<<2 \| r` read back as s, d and r |
| CodeWriter.OutputEncoding | assembler/codewriter.py:117-122 | `opd`/`opi` reject Y and H with an Argument error; any other register encodes in 0x08..0x0F with d set only for opd and the register number in the low bits |
| CodeWriter.OutputAsWrittenAcceptsH | assembler/codewriter.py:118 | as written, the test `in ['Y' or 'H']` lets H through, and `opd H` encodes exactly as `opd I` |
| CodeWriter.UnaryChecks | assembler/codewriter.py:146-162 | a one-source ALU instruction succeeds iff the destination is X or L and the source is not I, Y or H; a failure is an Argument error |
| CodeWriter.UnaryEncoding | assembler/codewriter.py:158-162 | its byte is in 0x40..0x7F, with x set iff the destination is X and m set iff the source is M; the opcode comes from the X table when the source is X and from the LM table otherwise |
| CodeWriter.BinaryChecks | assembler/codewriter.py:164-176 | a two-source ALU instruction succeeds iff the destination is X or L, no argument is I, Y or H, and exactly one argument is X |
| CodeWriter.BinaryEncoding | assembler/codewriter.py:168-182 | its byte is in 0x40..0x7F with m set iff either argument is M; sub takes opcode 0xD when its first argument is X and 0x5 otherwise |
| Words.Msb | emulator/emulator.py:174 | `msb()` is the index of the highest set bit: -1 only for the zero word, and shifting the word right by it leaves 1 |
| Words.Address | emulator/emulator.py:159 | `H.concat(L)` is below 2^15, with H as its high part and L as its low byte |
| Words.Add | emulator/emulator.py:261-262 | the 8-bit sum wraps modulo 256, and the carry is set iff the true sum reaches 256 |
| Disassembler.Disassemble | emulator/disassembler.py:4-15 | bytes from 0x80 up are `ldb` of their low seven bits; 1 and 4..7 are nop; 0 is hlt; every other byte is blank |
| Emulator.AluAdd | emulator/emulator.py:249-269 | opcode 9, through `OPCODE_MAPPING`, computes x + b and sets the carry from that addition |
| Emulator.AluAnd | emulator/emulator.py:249-269 | opcode 0xA computes x & b and keeps the carry |
| Emulator.AluOr | emulator/emulator.py:249-269 | opcode 0xE computes x \| b and keeps the carry |
| Emulator.AluSub | emulator/emulator.py:249-269 | opcode 0xD computes x - b and opcode 0x5 computes b - x |
| Emulator.AluNot | emulator/emulator.py:249-269 | opcode 0 complements x and opcode 3 complements b, neither touching the carry |
| Emulator.AluNeg | emulator/emulator.py:249-269 | opcode 8 negates x and opcode 0xF negates b |
| Emulator.AluInc | emulator/emulator.py:249-269 | opcode 0xC adds one to x and opcode 0xB adds one to b |
| Emulator.AluDec | emulator/emulator.py:249-269 | opcode 4 subtracts one from x and opcode 7 subtracts one from b |
| Emulator.ClearedScreen | emulator/emulator.py:46-52 | a new display is 20 by 4 blanks, with the cursor at 0 and the increment 1 |
| Emulator.ScreenData | emulator/emulator.py:67-73 | a data write puts the character in the cursor's cell, leaves every other cell alone, and moves the cursor by the increment modulo 80 |
| Emulator.ScreenInstructions | emulator/emulator.py:75-91 | instruction 1 clears the display, 2..3 return home, 4..7 set the direction from bit 1, and anything else changes nothing |
| Emulator.ScreenDataWraps | emulator/emulator.py:72 | moving backwards from cell 0 wraps to cell 79 |
| Emulator.Display.constructor | emulator/emulator.py:46-52 | the new display's state is the cleared screen |
| Emulator.Display.Data | emulator/emulator.py:67-73 | updates the display's fields exactly as ScreenData says |
| Emulator.Display.Instruction | emulator/emulator.py:75-91 | updates the display's fields exactly as ScreenInstruction says |
| Emulator.Initial | emulator/emulator.py:132-145 | after power-on every register and flag is cleared, RAM is zero, and ROM holds the program followed by zeros |
| Emulator.SourceField | emulator/emulator.py:185-187 | the move source field is at most 4 |
| Emulator.DestinationField | emulator/emulator.py:198-200 | the move destination field is at most 4 |
| Emulator.Step | emulator/emulator.py:165-247 | one step keeps the machine state well formed; it runs the corrected positive jump test `0 < X < 128` of the Finding at emulator/emulator.py:216, so `jgt` at X = 127 jumps where the program as written does not |
| Emulator.HaltStep | emulator/emulator.py:147-148 | the zero instruction means terminated, and a step then changes nothing |
| Emulator.LoadStep | emulator/emulator.py:176-177 | a byte with the top bit set loads its low seven bits into L; nothing else changes but PC |
| Emulator.AluInstructionStep | emulator/emulator.py:180-181 | 0x40..0x7F run the ALU on X and on L or memory (bit 4), writing X or L (bit 5) and the carry |
| Emulator.JumpInstructionStep | emulator/emulator.py:213-226 | 0x10..0x1F jump to H:L when their condition holds and otherwise only advance PC; it runs the corrected positive jump test `0 < X < 128` of the Finding at emulator/emulator.py:216, so `jgt` at X = 127 jumps where the program as written does not |
| Emulator.CarryInstructionStep | emulator/emulator.py:245-247 | instructions 2 and 3 increment H, wrapping at 7 bits, exactly when CF is clear or set respectively |
| Emulator.NoEffectStep | emulator/emulator.py:165-247 | instructions 1 and 4..7 only advance PC |
| Emulator.MemoryMoveStep | emulator/emulator.py:184-210 | `mov X M` (0x3C) writes X into the cell at H:L and nowhere else |
| Emulator.MoveIntoHStep | emulator/emulator.py:205-206 | a move into H keeps the low 7 bits of the source |
| Emulator.CompareAsWrittenSkips127 | emulator/emulator.py:216 | as written, the positive condition `0 < X < 127` is false at 127, which the corrected test takes |
| Emulator.CompareCovers | emulator/emulator.py:215-221 | with the corrected test, the positive, zero and negative conditions are exclusive and together cover every X |
| Emulator.Computer.constructor | emulator/emulator.py:132-145 | the new computer's state is `Initial(program)` |
| Emulator.Computer.Input | emulator/emulator.py:150-152 | IN takes the value and the input flag is raised; nothing else changes |
| Emulator.Computer.WriteMem | emulator/emulator.py:161-163 | only the RAM cell at H:L changes, to the value |
| Emulator.Computer.ExecuteAl | emulator/emulator.py:249-269 | the new state is AluStep of the old one |
| Emulator.Computer.Move | emulator/emulator.py:184-210 | the new state is MoveStep of the old one |
| Emulator.Computer.Output | emulator/emulator.py:229-242 | the new state is OutputStep of the old one |
| Emulator.Computer.Jump | emulator/emulator.py:213-226 | the new state is JumpStep of the old one; it runs the corrected positive jump test `0 < X < 128` of the Finding at emulator/emulator.py:216, so `jgt` at X = 127 jumps where the program as written does not |
| Emulator.Computer.CarryIncrement | emulator/emulator.py:245-247 | the new state is CarryStep of the old one |
| Emulator.Computer.Decode | emulator/emulator.py:174-247 | the new state is Dispatch of the old one; it runs the corrected positive jump test `0 < X < 128` of the Finding at emulator/emulator.py:216, so `jgt` at X = 127 jumps where the program as written does not |
| Emulator.Computer.Execute | emulator/emulator.py:165-247 | the new state is Step of the old one; it runs the corrected positive jump test `0 < X < 128` of the Finding at emulator/emulator.py:216, so `jgt` at X = 127 jumps where the program as written does not |
| LegacyEmulator.HasIsAnd | emulator.py:64-136 | the bit tests `instruction & 2^k` agree with Python's `&` on every integer |
| LegacyEmulator.MasksAreMod | emulator.py:65 | masking with 0xFF and 0x7F is reduction modulo 256 and 128 |
| LegacyEmulator.Address | emulator.py:53 | `H << 8 \| L` is H * 256 + L, below 2^15 |
| LegacyEmulator.Initial | emulator.py:30-42 | after power-on every register is zero, RAM is cleared, and ROM is the program padded with zeros to 2^15 entries |
| LegacyEmulator.Memory | emulator.py:51-53 | reading memory gives a byte |
| LegacyEmulator.AluAsWrittenDiffers | emulator.py:187-188 | as written, op 14 gives `1 or 2` = 1, and an overflowing add leaves the carry clear |
| LegacyEmulator.AddCarryAsWrittenNeverSet | emulator.py:173-175 | as written, the carry test `X & 0x100` is never true for a byte X |
| LegacyEmulator.AluAdd | emulator.py:173-175 | the corrected add gives (x + b) mod 256 and sets the carry iff x + b overflows |
| LegacyEmulator.AluOr | emulator.py:187-188 | the corrected op 14 gives exactly the bitwise or of the two bytes (Bits.BitOr), a byte covering both operands, with the carry kept |
| LegacyEmulator.AluStep | emulator.py:148-196 | the result, reduced to a byte, goes to X or L; PC and ROM are unchanged; it runs the corrected ALU of the Findings at emulator.py:187-188 and emulator.py:173-175: op 14 is the bitwise or, where the program gives Python's logical `or`, and an add sets the carry from bit 8 of the sum, which the program never sets |
| LegacyEmulator.SourceValue | emulator.py:75-85 | the move or output source is a byte |
| LegacyEmulator.MoveStepAsWritten | emulator.py:87-97 | the move as written keeps the state well formed |
| LegacyEmulator.MoveStep | emulator.py:87-97 | the corrected move keeps the state well formed and leaves PC and ROM alone |
| LegacyEmulator.MoveAsWrittenDiffers | emulator.py:94-97 | as written, `mov L Y` (0x2C) stores L into memory and `mov X M` (0x3D) is dropped; the corrected move sets Y and writes memory |
| LegacyEmulator.CompareAsWrittenDiffers | emulator.py:104-110 | as written, the positive jump skips X = 127 but is taken at X = 200, and the negative jump is never taken |
| LegacyEmulator.CompareCovers | emulator.py:104-110 | with the corrected tests, exactly one of the positive, zero and negative conditions holds for every byte X |
| LegacyEmulator.JumpStep | emulator.py:102-115 | a jump keeps the state well formed; it runs the corrected jump tests of the Finding at emulator.py:104-110: 0x19 is taken for X in 1..127 only and 0x1C for X of 128 or more, where the program skips X = 127 in the first, takes 0x19 at X above 127, and never takes 0x1C |
| LegacyEmulator.DisplayData | emulator.py:19-20 | a display data write always raises, because the row is a str |
| LegacyEmulator.OutputStep | emulator.py:117-133 | an output raises iff it is a data write (bit 2) |
| LegacyEmulator.CarryStep | emulator.py:140-146 | the carry step keeps the state well formed and leaves PC and ROM alone |
| LegacyEmulator.Step | emulator.py:59-146 | one step keeps the machine state well formed; it runs all four corrections of the legacy emulator's Findings |
| LegacyEmulator.StepBranches | emulator.py:59-146 | PC past ROM raises IndexError; otherwise the first set bit among 0x80, 0x40, 0x20, 0x10, 0x08 selects load, ALU, move, jump or output, then nop, then carry |
| LegacyEmulator.HaltStep | emulator.py:59-146 | bytes 0, 4 and 5 match no branch, so nothing changes, PC included |
| LegacyEmulator.LoadStep | emulator.py:64-66 | a byte from 0x80 up loads its low seven bits into L and advances PC |
| LegacyEmulator.AluResultIsByte | emulator.py:193-196 | ALU results reach X and L as bytes |
| LegacyEmulator.JumpStepPC | emulator.py:102-115 | a jump leaves PC at PC + 1 or at H:L and changes nothing else |
| LegacyEmulator.CarryStepH | emulator.py:140-146 | 3 increments H iff CF is set and 2 iff it is clear; H wraps at 7 bits and PC advances |
| LegacyEmulator.MoveIntoHStep | emulator.py:92-93 | a move into H keeps the low 7 bits of the source |
| LegacyEmulator.Display.constructor | emulator.py:10-13 | the cursor is at 0, 0 and there are four rows of 20 blanks |
| LegacyEmulator.Display.Data | emulator.py:19-20 | the write raises, as DisplayData says |
| LegacyEmulator.Computer.constructor | emulator.py:30-42 | the new computer's state is `Initial(program)` |
| LegacyEmulator.Computer.Input | emulator.py:44-46 | IN takes the value and the input flag is raised; nothing else changes |
| LegacyEmulator.Computer.ReadMem | emulator.py:51-53 | the value is the memory cell at H:L |
| LegacyEmulator.Computer.WriteMem | emulator.py:55-57 | only the RAM cell at H:L changes, to the value |
| LegacyEmulator.Computer.ExecuteAl | emulator.py:148-196 | the new state is AluStep of the old one; it runs the corrected ALU of the Findings at emulator.py:187-188 and emulator.py:173-175: op 14 is the bitwise or, where the program gives Python's logical `or`, and an add sets the carry from bit 8 of the sum, which the program never sets |
| LegacyEmulator.Computer.Move | emulator.py:73-99 | the new state is MoveStep of the old one; it runs the corrected move of the Finding at emulator.py:94-97: `mov L Y` (0x2C) sets Y, where the program writes memory, and `mov X M` (0x3D) writes memory, where the program drops it |
| LegacyEmulator.Computer.Jump | emulator.py:101-115 | the new state is JumpStep of the old one; it runs the corrected jump tests of the Finding at emulator.py:104-110: 0x19 is taken for X in 1..127 only and 0x1C for X of 128 or more, where the program skips X = 127 in the first, takes 0x19 at X above 127, and never takes 0x1C |
| LegacyEmulator.Computer.Carry | emulator.py:139-146 | the new state is CarryStep of the old one |
| LegacyEmulator.Computer.Execute | emulator.py:59-146 | the new state and outcome are Step of the old state; it runs all four corrections of the legacy emulator's Findings |
| LegacyEmulator.Computer.Control | emulator.py:101-146 | the jump, output, nop and carry branches give Step of the old state; its jump branch runs the corrected jump tests of the Finding at emulator.py:104-110: 0x19 is taken for X in 1..127 only and 0x1C for X of 128 or more, where the program skips X = 127 in the first, takes 0x19 at X above 127, and never takes 0x1C |
| PositionedStrings.PyIndex | text_utils/positioned_string.py:160 | an integer index is valid iff it lies in -n..n-1, and it then denotes i or i + n |
| PositionedStrings.SliceBound | text_utils/positioned_string.py:159 | a slice bound is clipped to 0..n, counts from the end when negative, and takes the default when absent |
| PositionedStrings.SliceOf | text_utils/positioned_string.py:159 | `s[start:stop]` holds the elements of s from the start bound on, in order |
| PositionedStrings.LineEnd | text_utils/positioned_string.py:50 | the first line lies before the first break, and it holds no break |
| PositionedStrings.BreakWidth | text_utils/positioned_string.py:50 | a break is one or two characters long, since "\r\n" counts as one break |
| PositionedStrings.Row | text_utils/positioned_string.py:53-56 | the characters of one line get columns 0, 1, … on that line |
| PositionedStrings.CreateString | text_utils/positioned_string.py:42-58 | the nested loops build the laid-out lines of `splitlines` |
| PositionedStrings.SplitLinesNoBreaks | text_utils/positioned_string.py:50 | no line that `splitlines` returns contains a break |
| PositionedStrings.SplitLinesJoin | text_utils/positioned_string.py:50-56 | joining the lines gives the text with its breaks removed |
| PositionedStrings.LayoutShape | text_utils/positioned_string.py:53-58 | the result has one coordinate per character, and its text is the lines joined |
| PositionedStrings.LayoutPositions | text_utils/positioned_string.py:53-56 | each character sits at the coordinate of the line and column it was taken from |
| PositionedStrings.LayoutOrdered | text_utils/positioned_string.py:53-56 | the coordinates run strictly forward through the text |
| PositionedStrings.CreateStringMeaning | text_utils/positioned_string.py:42-58 | `create_string` removes every break, gives each kept character the line (from `line` on) and column it came from, and keeps the coordinates in reading order |
| PositionedStrings.CreateStringBlank | text_utils/positioned_string.py:50-58 | a text of breaks only gives the empty string |
| PositionedStrings.SplitLinesEmptyLine | text_utils/positioned_string.py:50 | "a\r\n\rb" splits into "a", "" and "b" |
| PositionedStrings.CreateStringEmptyLine | text_utils/positioned_string.py:42-58 | an empty line still counts as a line, so the "b" above is on line 2 |
| PositionedStrings.At | text_utils/positioned_string.py:156-160 | `s[i]` is the one-character string with that coordinate, or IndexError when i is out of range of the text or of the coordinates |
| PositionedStrings.Slice | text_utils/positioned_string.py:158-159 | a slice cuts text and coordinates alike and keeps them aligned |
| PositionedStrings.Concat | text_utils/positioned_string.py:154 | `a + b` of two strings has both lengths added and stays aligned |
| PositionedStrings.Add | text_utils/positioned_string.py:144-154 | adding a str gives each new character the coordinate after the last one (IndexError on a non-empty text without coordinates); adding a PositionedString appends its coordinates |
| PositionedStrings.InsertionPoint | text_utils/positioned_string.py:77-79 | a negative index counts from one past the end, so the insertion point is within 0..n |
| PositionedStrings.InsertMeaning | text_utils/positioned_string.py:64-80 | `insert` succeeds iff the index is in -(n+1)..n (AssertionError otherwise); it places the new text at the insertion point in both lists, and an inserted str takes the coordinate after the preceding character |
| PositionedStrings.HexValue | text_utils/positioned_string.py:109-116 | a character has a value iff it is a hex digit in either case, and the value is below 16 |
| PositionedStrings.HexDigit | text_utils/positioned_string.py:109-116 | every value below 16 has a digit that reads back as it |
| PositionedStrings.IntAsWritten | text_utils/positioned_string.py:109 | as written, `int` of the empty string raises IndexError at `self.text[0]` |
| PositionedStrings.Int | text_utils/positioned_string.py:101-116 | `int(s)` is the hex value of the first character, or ValueError when there is none |
| PositionedStrings.IntAsWrittenDiffers | text_utils/positioned_string.py:101-116 | the two agree on every non-empty string and differ on the empty one |
| PositionedStrings.IntOfDigit | text_utils/positioned_string.py:101-116 | a string starting with the digit of v reads as v, whatever follows |
| PositionedStrings.Line | text_utils/positioned_string.py:169-174 | `line(i)` is the line of coordinate i, counting from the end for negative i, and fails out of range |
| PositionedStrings.EqualityOnText | text_utils/positioned_string.py:118-130 | `!=` negates `==`; equality compares the text only, and an instance of a subclass is never equal |
| PositionedStrings.LessTrichotomy | text_utils/positioned_string.py:132-142 | the string order is a strict total order |
| PositionedStrings.OrderingOnText | text_utils/positioned_string.py:132-142 | exactly one of <, == and > holds on the texts, and <= and >= are the strict order or equality |
| PositionedStrings.HashFollowsEquality | text_utils/positioned_string.py:98-99 | equal strings hash alike |
| PositionedStrings.Deleted | text_utils/positioned_string.py:165 | `del xs[key]` fails only for an integer key out of range |
| PositionedStrings.DeleteItemMeaning | text_utils/positioned_string.py:162-167 | deleting fails iff an integer key is out of range, changing nothing; otherwise it removes the same positions from text and coordinates, which stay aligned |
| PositionedStrings.StringObject.constructor | text_utils/positioned_string.py:31-39 | the object holds the given text and coordinates |
| PositionedStrings.StringObject.Delete | text_utils/positioned_string.py:162-167 | `del self[key]` changes the fields as DeleteItem says |
| CodeObjects.NoneOf | text_utils/code_object.py:26-31 | `CodeObject.none(text)` has the value None and the given text, or the empty string when none is given |
| CodeObjects.Plus | text_utils/code_object.py:34-36 | `o + other` fails its assertion for a str or any other non-PositionedString; otherwise it keeps o's value and concatenates the strings |
| CodeObjects.PlusIsStringAdd | text_utils/code_object.py:34-36 | the string of `o + p` is the PositionedString `+` of the two strings, whether p is a plain string or a CodeObject |
| CodeObjects.PlusAssociative | text_utils/code_object.py:34-36 | `+` is associative and keeps the value of the leftmost operand |
| CodeObjects.Combine | text_utils/code_object.py:53-54 | `add(a, b, f)` has the value `f(a.value, b.value)` on the text a + b |
| CodeObjects.CombineIsPlus | text_utils/code_object.py:53-54 | `add` places its text exactly where `+` does, whatever the function |
| CodeObjects.HashByValue | text_utils/code_object.py:38-40 | the hash is that of the value: equal iff the values are equal, whatever the text |
| CodeObjects.CodeObjectEquality | text_utils/positioned_string.py:118-123 | the as-written half of the Finding at text_utils/code_object.py:38-40: no CodeObject equals another CodeObject, not even itself, since the type test rejects subclasses; against a str, equality is on the text |
| CodeObjects.ValueEquality | text_utils/code_object.py:38-40 | the corrected half of the Finding at text_utils/code_object.py:38-40, paired with its as-written member: a CodeObject equals a str, a PositionedString or another CodeObject exactly when their hashes agree, that is when the other's text or value is its value; between CodeObjects it is symmetric and every object equals itself, where the inherited `==` makes no CodeObject equal to itself |
| CodeObjects.EqualityTests | tests/text_utils/test_code_object.py:107-120 | for every pair of operand kinds in `test_eq`, in either order, a CodeObject and a str, PositionedString or CodeObject are equal exactly when the values are, whatever the texts |
| CodeObjects.InOperator | tests/text_utils/test_code_object.py:67-92 | a CodeObject is in a list exactly when some key's hash is that of its value, and a lookup by hash followed by `==`, as a dictionary does, finds the same keys |
| CodeObjects.EqualityTestAsWritten | tests/text_utils/test_code_object.py:107-120 | the as-written case that `test_eq` expects to hold: `CodeObject('Hello World', create_string('2')) == 'Hello World'` is False under the inherited `__eq__`, which compares the text '2', and True by value |
| TextCode.Bounds | text_utils/code.py:55-63 | a missing bound is derived from the other bound and the length, or defaults to the offset, and relative bounds are moved by the offset |
| TextCode.Substring | text_utils/code.py:32-64 | giving all of start, end and length fails the assertion; otherwise the text between the derived bounds, with the end clipped at the text's length |
| TextCode.CharAt | text_utils/code.py:137-147 | `code[i]` is the character i places after the offset, negative indices counting from the end; a position past the end gives the null character at the last coordinate; IndexError only for an empty text |
| TextCode.Remaining | text_utils/code.py:133-135 | `len(code)` is the number of characters from the offset on, never negative |
| TextCode.AdvanceMeaning | text_utils/code.py:70-81 | `advance(n)` returns up to n characters from the offset, never passes the end, and moves the offset by the returned length, which `len` loses |
| TextCode.OccursAtWindow | text_utils/code.py:94 | inside the text, an occurrence is an ordinary window comparison |
| TextCode.FirstOccurrence | text_utils/code.py:93-97 | the position the loop of `advance_past` stops at is an occurrence from the offset on, before the end |
| TextCode.FirstOccurrenceIsFirst | text_utils/code.py:93-99 | no occurrence comes before the one found, and none exists when nothing is found |
| TextCode.AdvancePastMeaning | text_utils/code.py:83-99 | `advance_past(m)` stops at the first occurrence of m from the offset on and returns the text through it; when there is none nothing moves |
| TextCode.AcceptsIsSubstringTest | text_utils/code.py:111-112 | the test `match` makes is the comparison with what `substring` reads |
| TextCode.FirstMatch | text_utils/code.py:110-112 | the chosen candidate is one that `match` accepts |
| TextCode.FirstMatchIsFirst | text_utils/code.py:110-115 | no earlier candidate is accepted |
| TextCode.CandidateTest | text_utils/code.py:111-112 | a candidate is accepted iff the text goes on with it |
| TextCode.FirstMatchMeaning | text_utils/code.py:110-115 | the candidate picked is the first the text goes on with, and there is none iff the text goes on with no candidate |
| TextCode.MatchMeaning | text_utils/code.py:101-115 | `match` passes over the first candidate the text goes on with and returns it with those characters' coordinates; otherwise nothing moves |
| TextCode.MatchReadsBack | text_utils/code.py:113-114 | after passing over m, `substring(end=0, length=len(m), relative=True)` reads m back with its coordinates |
| TextCode.MatchRangeMeaning | text_utils/code.py:117-131 | inside the text, `match_range` moves one character on iff that character lies in the range, and returns it |
| TextCode.SpaceIsInside | text_utils/code.py:151-152 | whitespace at the offset lies inside the text, and advancing over it moves the offset by exactly one |
| TextCode.SkipWhitespaceMeaning | text_utils/code.py:149-152 | `skip_whitespace` raises IndexError exactly on an empty text; otherwise it passes over whitespace only, stops at the first other character or at the end, and keeps the text |
| TextCode.Code.constructor | text_utils/code.py:25-30 | the new cursor reads the opened text from offset 0; it opens a str with the corrected `Code(str)` of the Finding at text_utils/code.py:29, where the program as written raises TypeError on every str |
| TextCode.Code.Advance | text_utils/code.py:70-81 | the result and new state are those of Advanced |
| TextCode.Code.AdvancePast | text_utils/code.py:83-99 | the loop gives the result and new state of AdvancedPast |
| TextCode.Code.Match | text_utils/code.py:101-115 | the loop gives the result and new state of Matched |
| TextCode.Code.MatchRange | text_utils/code.py:117-131 | the result and new state are those of MatchedRange |
| TextCode.Code.SkipWhitespace | text_utils/code.py:149-152 | the loop gives the outcome and new state of SkippedWhitespace |
| TextCode.Opened | text_utils/code.py:28-30 | a str is laid out by `create_string`, so its coordinates are well formed; a PositionedString is kept; it opens a str with the corrected `Code(str)` of the Finding at text_utils/code.py:29, where the program as written raises TypeError on every str |
| TextCode.OpenedAsWritten | text_utils/code.py:29 | as written, every str argument raises TypeError, since `create_string` has no `keep_ends` parameter |
| TextCode.OpenedMeaning | text_utils/code.py:25-30 | a Code opened on a str holds its characters without breaks, in reading order, while the code as written fails |
| TextCode.LineRun | text_utils/code.py:211-215 | the run of characters on the first line ends at the first character on another line |
| TextCode.SplitFirstLine | text_utils/code.py:211-215 | a text spanning several lines splits after the run on its first line, and the two parts make up the text |
| TextCode.SplitsOffWhole | text_utils/code.py:205-209 | a text that ends on the line it starts on is taken whole |
| TextCode.SplitsOffRun | text_utils/code.py:211-215 | a text that ends on another line is split after its first line |
| TextCode.SkipLineMeaning | text_utils/code.py:191-215 | `skip_line` returns True iff text remains; the offset goes to 0 and the remaining text is split into the new line and the new remainder; otherwise the offset moves to the end |
| TextCode.SkippedLineRun | text_utils/code.py:211-215 | the split happens exactly at the end of the first line's run |
| TextCode.LinedHasMoreLength | text_utils/code.py:217-223 | `has_more` holds iff `len` is positive, for the line and for the whole LinedCode |
| TextCode.AdvanceLineMeaning | text_utils/code.py:180-189 | `advance_line` refuses while the line has characters left, otherwise is `skip_line`, and never loses remaining text |
| TextCode.OpenedLinesAsWrittenRepeats | text_utils/code.py:175-178 | as written, the constructor keeps the whole text as the current line and again as the remaining text, so `len` counts every character twice |
| TextCode.OpenedLinesMeaning | text_utils/code.py:175-178 | the corrected constructor starts on the first line, and the current line and the remainder together are the text |
| TextCode.LinedCode.constructor | text_utils/code.py:175-178 | the new state is the opened text with its first line split off; it opens a str with the corrected `Code(str)` of the Finding at text_utils/code.py:29, where the program as written raises TypeError, and starts on the first line as in the Finding at text_utils/code.py:175-178, where the program keeps the whole text twice |
| TextCode.LinedCode.SkipLine | text_utils/code.py:191-215 | the loop gives the result and new state of SkippedLine |
| TextCode.LinedCode.AdvanceLine | text_utils/code.py:180-189 | the result and new state are those of AdvancedLine |
| CStringText.FromCoordinates | cstring.py:640-669 | the three lists of an older PositionedString carry the text and one line and one position per coordinate of the newer one |
| CStringText.CreateString | cstring.py:672-695 | the created string keeps its text, lines and positions aligned |
| CStringText.CreateStringText | cstring.py:684-694 | the text is the source text with its line breaks dropped, with one line and one position per character |
| CStringText.CreateStringPlaces | cstring.py:688-692 | character k sits on source line `lines[k] - line` at index `positions[k]` of that line |
| CStringText.CreateStringLinesAscend | cstring.py:688-692 | line numbers never decrease along the string |
| CStringText.Slice | cstring.py:811-814 | a slice keeps the lists aligned and slices the text as Python does |
| CStringText.SliceWindow | cstring.py:696-709 | `substring(start, end)` within bounds is the same window of text, lines and positions |
| CStringText.At | cstring.py:811-815 | an integer key gives the character with its line and position; it raises IndexError iff Python's index misses one of the lists |
| CStringText.Line | cstring.py:826-831 | `line(index)` is the line of that character, and fails iff the index misses the list |
| CStringText.Uniform | cstring.py:726-728 | a str to be joined gets one line and one position for all of its characters |
| CStringText.Concat | cstring.py:801 | the text of a sum is the two texts joined, and aligned strings give an aligned sum |
| CStringText.Add | cstring.py:795-809 | `+`: another PositionedString is joined; a str takes the last character's line and position (0 and 0 on an empty string); any other operand fails the assertion |
| CStringText.InsertMeaning | cstring.py:711-730 | `insert` past the end fails the assertion; otherwise the str goes in at the index, each character with the line and position of the one before it, and the rest is kept |
| CStringText.DeleteIndexUnaligns | cstring.py:817-824 | as written, deleting an integer index drops a line and a position but keeps the character, so the lists no longer fit the text |
| CStringText.DeleteMeaning | cstring.py:817-824 | the corrected `del` removes the same positions from text, lines and positions, and raises only for an integer index out of range |
| CStringText.DeleteRangeAgrees | cstring.py:819-824 | for a slice key, the code as written and the corrected code agree |
| CStringText.Int | cstring.py:751-766 | `int()` is the hex value of the first character, below 16; a non-hex digit raises, and an empty string raises IndexError |
| CStringText.IntAsNewer | cstring.py:751-766 | the older `int()` reads digits exactly as the newer one as written |
| CStringText.Compared | cstring.py:775-793 | the ordering operators and `!=` fail exactly for an operand that is neither a str nor a PositionedString |
| CStringText.ComparisonsOnText | cstring.py:768-793 | comparisons look at the text only: `==` is False and the others raise for other objects; otherwise `!=` is the negation of `==`, exactly one of <, ==, > holds, and <=, >= are the strict order or equality |
| CStringText.HashFollowsEquality | cstring.py:748-749 | equal strings hash alike |
| CStringObjects.Apply | cstring.py:513-613 | the int operators apply to two ints (a negative shift count raises), `+` joins two strs, and every other pairing raises TypeError; the result keeps the operand's kind |
| CStringObjects.Binary | cstring.py:525-613 | a binary operator gives the operator's value; a CodeObject operand adds its text, a plain operand leaves the text alone |
| CStringObjects.ObjectOperandIsValueOperand | cstring.py:525-613 | combining with a CodeObject gives the same value as combining with its bare value |
| CStringObjects.AndPlusOfInts | cstring.py:525-574 | `&` and `+` of two int objects give the bitwise and or the sum, on the two texts joined with all their lines and positions |
| CStringObjects.InvertValue | cstring.py:619-621 | `~` is defined on ints only and gives `-v - 1` |
| CStringObjects.NegateValue | cstring.py:623-625 | unary `-` is defined on ints only and gives the opposite |
| CStringObjects.Invert | cstring.py:619-621 | `~a` inverts the value and keeps the text |
| CStringObjects.Negate | cstring.py:623-625 | `-a` negates the value and keeps the text |
| CStringObjects.InvertNegateInvolutions | cstring.py:619-625 | inverting twice or negating twice gives the object back |
| CStringObjects.Less | cstring.py:443-455 | `<` raises TypeError exactly between an int and a str |
| CStringObjects.OrderingOnValues | cstring.py:429-511 | only values matter: between values of one kind, exactly one of <, ==, > holds and <=, >= are the strict orders or equality; between an int and a str only `==` and `!=` answer |
| CStringObjects.HashFollowsEquality | cstring.py:615-617 | equal objects hash alike |
| CStringObjects.Length | cstring.py:635-637 | `len` is the length of a str value; an int has none |
| CStringObjects.CodeObjectCell.constructor | cstring.py:424-427 | a new object holds the given value and text |
| CStringObjects.CodeObjectCell.Update | cstring.py:513-586 | `&=`, `\|=`, `+=`, `-=` leave the object as the matching binary operator would build it; an operator that raises leaves it as it was |
| CStringCode.SubstringLength | cstring.py:36-49 | a substring from the offset keeps the lists aligned |
| CStringCode.SubstringAbsolute | cstring.py:51-65 | so does a substring between absolute bounds, each missing bound being the offset |
| CStringCode.SubstringRelative | cstring.py:67-78 | so does a substring between bounds relative to the offset |
| CStringCode.SubstringForms | cstring.py:36-78 | the three forms are one slice: a length is a relative end, relative bounds are absolute bounds moved by the offset, and no bounds give the empty string |
| CStringCode.SubstringLengthMeaning | cstring.py:36-49 | `substring_length(n)` is the window of n characters from the offset, or of what is left, with its lines and positions |
| CStringCode.Len | cstring.py:163-165 | `len` is what is left after the offset, and 0 once the offset is at or past the end |
| CStringCode.CharAt | cstring.py:167-177 | `code[i]` within range is the character i after the offset; past the end it is the null character with the last character's line and position, and an empty string raises |
| CStringCode.AdvancePastTheEnd | cstring.py:84-96 | `advance(n)` returns what is left of the next n characters but moves the offset by all of n, so it can pass the end, where `len` stays 0 |
| CStringCode.AdvancePastMeaning | cstring.py:98-114 | `advancepast(m)` stops after the first occurrence of m from the offset on and returns the text through it; when there is none nothing moves |
| CStringCode.MatchesIsSubstringTest | cstring.py:141-142 | the test `match` makes is the comparison with what `substring_length` reads |
| CStringCode.MatchesIffContinues | cstring.py:141-142 | within the string, that test holds iff the text goes on with m |
| CStringCode.Matched | cstring.py:131-145 | `match(m)` is True and moves past m exactly when the test holds, and otherwise moves nothing |
| CStringCode.FirstMatch | cstring.py:126-127 | the candidate `matchany` picks is one `match` accepts |
| CStringCode.FirstMatchIsFirst | cstring.py:126-129 | no earlier candidate is accepted |
| CStringCode.FirstMatchMeaning | cstring.py:126-129 | the picked candidate is the first the text goes on with, and there is none iff the text goes on with no candidate |
| CStringCode.MatchAnyReadsBack | cstring.py:127-128 | after passing over m, `substring_relative(-len(m))` reads m back with its lines and positions |
| CStringCode.MatchAnyMeaning | cstring.py:116-129 | `matchany` passes over the first candidate the text goes on with and returns it with its lines and positions; otherwise nothing moves |
| CStringCode.MatchRangeMeaning | cstring.py:147-161 | inside the string, `matchrange` moves one character on iff that character lies in the range, and returns it |
| CStringCode.SpaceIsInside | cstring.py:208-211 | whitespace is read only inside the string, so each round of `skip_whitespace` shortens what is left |
| CStringCode.SkipWhitespaceMeaning | cstring.py:208-211 | `skip_whitespace` moves over whitespace only and stops at the first other character or at the end |
| CStringCode.Spread | cstring.py:32-34 | the text the constructor's loop builds from character j on starts with character j and keeps the lists aligned |
| CStringCode.SpreadStep | cstring.py:32-34 | one round of the loop, at character i, extends the finished part by one character |
| CStringCode.SpreadOnlyAddsNewlines | cstring.py:32-34 | leaving out the newlines gives back the text laid out by `create_string` |
| CStringCode.SpreadLength | cstring.py:32-34 | the loop inserts exactly as many newlines as the line number climbs |
| CStringCode.CodeFromStrMeaning | cstring.py:24-34 | `Code(str)` starts at offset 0 on the text without line breaks, with one '\n' put back for each line step |
| CStringCode.SpreadLines | cstring.py:32-34 | the loop over the characters from the last down to the second builds the spread text |
| CStringCode.SpreadAt | cstring.py:33-34 | one round of that loop, at character i |
| CStringCode.TrimFront | cstring.py:183-187 | the first loop of `stripwhitespace` keeps the lists aligned |
| CStringCode.TrimFrontDeletes | cstring.py:184-187 | that loop is `del string[0:i]` at the first character that is not whitespace |
| CStringCode.TrimBack | cstring.py:189-193 | the second loop keeps the lists aligned |
| CStringCode.TrimBackDeletes | cstring.py:190-193 | that loop is `del string[i + 1:len(string)]` at the last character that is not whitespace |
| CStringCode.TrimMeaning | cstring.py:183-193 | the first two loops leave the window from the first to the last character that is not whitespace, and a text of whitespace only as it is |
| CStringCode.TrimKeeps | cstring.py:183-193 | they remove whitespace only and leave no whitespace at either end unless the text is whitespace only |
| CStringCode.Cut | cstring.py:198-206 | the deletion at a line boundary keeps the lists aligned and never lengthens the string |
| CStringCode.CutDeletes | cstring.py:198-206 | that deletion is `del string[start + 1:end]` between the last non-whitespace before the boundary and the first after |
| CStringCode.CutAt | cstring.py:198-206 | the two inner loops of the third loop and the deletion make that cut |
| CStringCode.CutKeepsNonSpace | cstring.py:198-206 | a cut removes whitespace only |
| CStringCode.CutKeepsEnds | cstring.py:200-206 | a cut does not reach the first or last character when neither is whitespace |
| CStringCode.BoundaryStepAsWritten | cstring.py:195-206 | as written, after a cut the third loop goes on at the next index down of the unshortened string |
| CStringCode.BoundaryPastEndRaises | cstring.py:195-197 | as written, the loop raises as soon as it compares a character the shortened string no longer has |
| CStringCode.StripAsWrittenRaises | cstring.py:179-206 | as written, the two lines "a  " and "b" make `stripwhitespace` raise IndexError, while the corrected code leaves "ab" |
| CStringCode.Boundaries | cstring.py:195-206 | the corrected third loop, which after a cut goes on at a boundary the shortened string still has, keeps the lists aligned and never lengthens the string |
| CStringCode.BoundaryStep | cstring.py:195-206 | one round of that loop: a cut at a line boundary, then on at the highest boundary the shortened string still has |
| CStringCode.BoundariesAgree | cstring.py:195-206 | wherever the loop as written gets through, it produces what the corrected loop produces |
| CStringCode.BoundariesKeep | cstring.py:195-206 | the corrected loop removes whitespace only and keeps the ends |
| CStringCode.BoundariesOneLine | cstring.py:195-197 | on a string all on one line both loops find no boundary |
| CStringCode.Strip | cstring.py:179-206 | the corrected `stripwhitespace` keeps the lists aligned |
| CStringCode.StripAgrees | cstring.py:179-206 | whenever `stripwhitespace` as written does not raise, it gives the corrected result |
| CStringCode.StripMeaning | cstring.py:179-206 | `stripwhitespace` removes whitespace and nothing else, never lengthens the string, and leaves no whitespace at either end unless the text is whitespace only |
| CStringCode.StripOneLine | cstring.py:179-206 | on one line, both versions just trim the two ends |
| CStringCode.StripFront | cstring.py:183-187 | the first loop computes TrimFront |
| CStringCode.StripBack | cstring.py:189-193 | the second loop computes TrimBack |
| CStringCode.StripBoundaries | cstring.py:195-206 | the corrected third loop computes Boundaries |
| CStringCode.Code.constructor | cstring.py:24-34 | the new state is the built text at offset 0 |
| CStringCode.Code.Advance | cstring.py:84-96 | the result and new state are those of Advanced |
| CStringCode.Code.AdvancePast | cstring.py:98-114 | the loop gives the result and new state of AdvancedPast |
| CStringCode.Code.Match | cstring.py:131-145 | the result and new state are those of Matched |
| CStringCode.Code.MatchAny | cstring.py:116-129 | the loop over the candidates gives the result and new state of MatchedAny |
| CStringCode.Code.MatchRange | cstring.py:147-161 | the result and new state are those of MatchedRange |
| CStringCode.Code.StripWhitespace | cstring.py:179-206 | the new string is Strip of the old and the offset is unchanged; the new string is the corrected Strip of the Finding at cstring.py:195-206; on the two lines "a  " and "b" the program as written raises IndexError |
| CStringCode.Code.SkipWhitespace | cstring.py:208-211 | the loop gives the outcome and new state of SkippedWhitespace |
| CStringLined.Source | cstring.py:236-237 | a str is laid out by `create_string` without its line breaks; a PositionedString is used as it is |
| CStringLined.Segments | cstring.py:244-252 | the constructor's loop cuts the text into at least one aligned piece |
| CStringLined.SegmentsCover | cstring.py:244-252 | every piece lies on one line, and the pieces put together are the whole text |
| CStringLined.SegmentsStart | cstring.py:242-251 | the first piece is empty exactly when the text is empty or starts on a line other than 0, and every later piece has a character |
| CStringLined.Strips | cstring.py:247-253 | every piece is stripped |
| CStringLined.PieceStrip | cstring.py:247-254 | a stripped one-line piece stays on one line, has no whitespace at its ends unless it is whitespace only, keeps a character if it had one, and stripping it as written cannot raise |
| CStringLined.StripsOfSegments | cstring.py:244-255 | the stripped pieces are stripped one-line strings, each with a character after the first |
| CStringLined.CutNeverRaises | cstring.py:247-253 | the constructor never meets the IndexError of `stripwhitespace` as written |
| CStringLined.CutLinesMeaning | cstring.py:235-255 | every line is stripped and at offset 0, only the first can be empty, and together the lines hold every character of the text that is not whitespace, in order |
| CStringLined.CutLinesEdges | cstring.py:235-255 | an empty text gives one empty line, a text whose first character is off line 0 starts with an empty line, and a whitespace-only text on line 0 gives no line at all |
| CStringLined.KeepLine | cstring.py:246-249 | one line is made a Code, stripped, and kept unless it is whitespace only |
| CStringLined.CutInto | cstring.py:244-255 | the constructor's loop and the last line after it give the stripped non-blank pieces |
| CStringLined.CutLinesWellformed | cstring.py:235-255 | a new LinedCode is well formed: each line stripped, the later lines unread and not empty |
| CStringLined.ReadsStayOnLine | cstring.py:222-396 | every substring and character read is a piece of the current line and lies on one source line; with no line they raise |
| CStringLined.PutOffset | cstring.py:288-361 | moving the current line's cursor changes only that offset and keeps the LinedCode well formed |
| CStringLined.MoversStayOnLine | cstring.py:288-361 | `advance`, `advancepast`, `match`, `matchany` and `matchrange` change only the current line's offset, and with no line they raise IndexError |
| CStringLined.HasMoreIffLength | cstring.py:376-390 | on a well-formed LinedCode, `hasmore` holds iff `len` is positive; both raise iff there is no line |
| CStringLined.NextLine | cstring.py:314-325 | `advanceline` moves on iff there is a later line and the current one has nothing left, and otherwise changes nothing |
| CStringLined.NextLineMeaning | cstring.py:314-325 | it keeps the LinedCode well formed and never skips unread text: the line left is done, the new one unread, and `len` unchanged |
| CStringLined.LinedCode.constructor | cstring.py:235-256 | the new state is the cut lines at line 0, well formed |
| CStringLined.LinedCode.Offset | cstring.py:257-259 | `getoffset` is the current line's offset |
| CStringLined.LinedCode.Advance | cstring.py:288-300 | the result and new state are those of the current line's `advance` |
| CStringLined.LinedCode.AdvancePast | cstring.py:302-312 | the result and new state are those of the current line's `advancepast` |
| CStringLined.LinedCode.Match | cstring.py:326-336 | the result and new state are those of the current line's `match` |
| CStringLined.LinedCode.MatchAny | cstring.py:338-348 | the result and new state are those of the current line's `matchany` |
| CStringLined.LinedCode.MatchRange | cstring.py:350-361 | the result and new state are those of the current line's `matchrange` |
| CStringLined.LinedCode.AdvanceLine | cstring.py:314-325 | the new state is NextLine of the old, well formed, and the result says whether it moved |
| CStringLined.LinedCode.Length | cstring.py:384-390 | the loop adds up what is left on the current line and every later one |
| Tokens.EndToken | assembler/tokenizer.py:28-31 | an INSTRUCTION_END token carries no value and no text |
| Tokens.AddToken | assembler/tokenizer.py:81-103 | `addtoken` keeps the old tokens as a prefix and appends the new token, whose value defaults to its text, with at most one INSTRUCTION_END before it |
| Tokens.SeparatedMeaning | assembler/tokenizer.py:97-99 | in a list `addtoken` builds, two neighbouring tokens are separated by an INSTRUCTION_END exactly when they lie on different lines |
| Tokens.PlacedLine | assembler/tokenizer.py:98 | the line a token reports is its first character's |
| Tokens.AddTokenSeparated | assembler/tokenizer.py:81-103 | adding a token read from the code never raises and keeps that shape: an INSTRUCTION_END goes in front exactly when the last token lies on another line |
| Lexemes.Span | assembler/tokenizer.py:217 | the text a reader gives its token is the characters it passed over, with their coordinates |
| Lexemes.SliceIsSpan | assembler/tokenizer.py:217 | inside the text, the slice `substring(start=start)` reads is that span |
| Lexemes.RunValueIsValue | assembler/tokenizer.py:211-284 | the value the digit loops accumulate in place is the value of the digits read |
| Lexemes.ValueBound | assembler/tokenizer.py:211-217 | n digits write a number below base^n |
| Lexemes.DigitRun | assembler/tokenizer.py:211-284 | the digit loops stop at the first character that is not a digit of the base |
| Lexemes.Numeral | assembler/tokenizer.py:190-284 | the numeral of v in a base is a non-empty run of its digits |
| Lexemes.NumeralValue | assembler/tokenizer.py:190-284 | reading a numeral's digits back gives the number |
| Lexemes.NumeralLead | assembler/tokenizer.py:238-256 | a numeral starts with 0 only when it is "0" |
| Lexemes.ProblemKinds | assembler/tokenizer.py:209-320 | every problem a reader raises is a CompilerException, except the IndexError of reading a line with no characters |
| Lexemes.PerformReads | assembler/tokenizer.py:81-321 | whatever a reader finds, adding it leaves the cursor in the line, keeps the tokens unless a token is read, and then appends one token whose text is exactly what was passed over |
| Lexemes.FoundLast | assembler/tokenizer.py:217 | a token found goes last and the cursor goes to its end |
| Lexemes.ScanBin | assembler/tokenizer.py:190-217 | `tokenize_bin` finds a token inside the line or raises with the cursor inside it |
| Lexemes.ScanHex | assembler/tokenizer.py:258-284 | likewise `tokenize_hex` |
| Lexemes.ScanOct | assembler/tokenizer.py:219-236 | likewise `tokenize_oct` |
| Lexemes.ScanDec | assembler/tokenizer.py:238-256 | likewise `tokenize_dec` |
| Lexemes.ScanChar | assembler/tokenizer.py:286-321 | likewise `tokenize_char` |
| Lexemes.ScanFrom | assembler/tokenizer.py:182-188 | the loop of `tokenize_int` from its k-th reader on |
| Lexemes.ScanInt | assembler/tokenizer.py:172-188 | `tokenize_int` finds a token inside the line or raises with the cursor inside it |
| Lexemes.PassesOn | assembler/tokenizer.py:184-186 | a reader that finds nothing passes on to the next |
| Lexemes.Decides | assembler/tokenizer.py:184-186 | a reader that finds a token or raises decides the result |
| Lexemes.NoneFound | assembler/tokenizer.py:182-188 | when `tokenize_int` finds nothing, no reader found anything |
| Lexemes.IntDeclines | assembler/tokenizer.py:172-188 | without a digit or a quotation mark at the cursor no integer is read |
| Lexemes.IntReads | assembler/tokenizer.py:172-188 | a digit or a quotation mark at the cursor makes `tokenize_int` read a token or raise |
| Lexemes.BinaryReadsBack | assembler/tokenizer.py:190-217 | binary digits after "0b", followed by no word character, read as the number they write |
| Lexemes.HexReadsBack | assembler/tokenizer.py:258-284 | hexadecimal digits after "0x" read as the number they write |
| Lexemes.OctalReadsBack | assembler/tokenizer.py:219-236 | octal digits after "0" read as the number they write; "0" alone reads as 0 |
| Lexemes.DecimalReadsBack | assembler/tokenizer.py:238-256 | decimal digits read as the number they write |
| Lexemes.CharacterReadsBack | assembler/tokenizer.py:286-316 | a printable character between quotation marks reads as its code |
| Lexemes.BinaryInt | assembler/tokenizer.py:172-217 | `tokenize_int` reads a binary literal as its value |
| Lexemes.HexInt | assembler/tokenizer.py:172-284 | `tokenize_int` reads a hexadecimal literal as its value |
| Lexemes.OctalInt | assembler/tokenizer.py:172-236 | `tokenize_int` reads an octal literal as its value |
| Lexemes.DecimalInt | assembler/tokenizer.py:172-256 | `tokenize_int` reads a decimal literal that does not start with 0 as its value |
| Lexemes.CharacterInt | assembler/tokenizer.py:172-316 | `tokenize_int` reads a character literal as the character's code |
| Lexemes.NumeralReadsBack | assembler/tokenizer.py:172-321 | the literal of any number in any of the four bases, followed by no word character, reads back as the number |
| Lexemes.IntegerReadsBack | assembler/tokenizer.py:81-321 | after a separated list, that literal becomes the last token: an INTEGER whose text is exactly the literal and whose value is the number |
| Lexemes.ZeroReadsBack | assembler/tokenizer.py:219-236 | a lone 0 is read as 0 |
| Lexemes.WordRun | assembler/tokenizer.py:145-149 | a word runs up to the first character that is neither alphanumeric nor an underscore |
| Lexemes.WordEnd | assembler/tokenizer.py:145-151 | a word has at least its first character |
| Lexemes.ScanWord | assembler/tokenizer.py:126-159 | `tokenize_keyword_identifier_register` finds a token inside the line |
| Lexemes.SymbolMatched | assembler/tokenizer.py:167 | `match(*symbols)` passes over the symbol the text goes on with, or over nothing |
| Lexemes.ScanSymbol | assembler/tokenizer.py:161-170 | `tokenize_symbol` finds a token inside the line |
| Lexemes.SymbolPerformed | assembler/tokenizer.py:167-170 | the symbol added is the one `match` passed over, and the cursor the one it left |
| Lexemes.SymbolIndex | assembler/tokenizer.py:163-167 | each symbol character is one of the candidates |
| Lexemes.SymbolCandidates | assembler/tokenizer.py:163-167 | no candidate is accepted iff the next character is none of `:+-&\|!()` |
| Lexemes.SymbolDeclines | assembler/tokenizer.py:161-170 | only a symbol character makes a symbol token, of that one character |
| Lexemes.ScanToken | assembler/tokenizer.py:75-77 | the readers of the main loop find a token inside the line or raise |
| Lexemes.ScanTokenDeclines | assembler/tokenizer.py:75-78 | no reader finds a token exactly when the next character is not a digit, a quotation mark, a letter, an underscore or a symbol |
| Lexemes.WordMeaning | assembler/tokenizer.py:126-159 | a word is read up to the first character that is neither alphanumeric nor an underscore, and typed a keyword, a register or an identifier; the loop bound never cuts it short |
| Lexemes.WordKinds | assembler/tokenizer.py:153-159 | a mnemonic's spelling is a keyword, a register's is a register, and every other word is an identifier |
| AsmTokenizer.SkipLineReady | text_utils/code.py:191-215 | `skip_line` moves to a new non-empty line with less text after it, or on the last line only moves to its end |
| AsmTokenizer.MatchOne | text_utils/code.py:101-115 | `match` of one character passes over it exactly when it is next |
| AsmTokenizer.MatchPairAt | text_utils/code.py:101-115 | `match` of two characters passes over them exactly when they are next |
| AsmTokenizer.MatchEither | assembler/tokenizer.py:201-270 | `match('0b', '0B')` passes over a prefix in either case |
| AsmTokenizer.QuoteAt | assembler/tokenizer.py:304-305 | `code[0]` and `code[1]` are the next characters, or the null character past the end of the line |
| AsmTokenizer.WordCharAt | assembler/tokenizer.py:145-149 | `code[i]` in the word loop is the character there, or the null character, which ends the word |
| AsmTokenizer.WordGrows | assembler/tokenizer.py:146-147 | a word character extends the word by one |
| AsmTokenizer.WordEndAt | assembler/tokenizer.py:145-149 | where the loop stops is where the word ends |
| AsmTokenizer.MatchRangeAt | assembler/tokenizer.py:232-252 | `match_range` passes over a character in the range, raises IndexError on a line with no characters, and otherwise moves nothing |
| AsmTokenizer.HexAt | assembler/tokenizer.py:274-281 | `int(code[0])` is the value of the hex digit at the offset and raises on any other character |
| AsmTokenizer.BinEnds | assembler/tokenizer.py:200-217 | `tokenize_bin` raises "Invalid binary literal" without a digit after the prefix, and otherwise ends at the end of the digit run with its value |
| AsmTokenizer.HexEnds | assembler/tokenizer.py:269-284 | likewise `tokenize_hex` with "Invalid hex literal" |
| AsmTokenizer.OctEnds | assembler/tokenizer.py:226-236 | `tokenize_oct` ends at the end of the octal run with its value |
| AsmTokenizer.DecEnds | assembler/tokenizer.py:245-256 | `tokenize_dec` ends at the end of the decimal run with its value |
| AsmTokenizer.PastCommentEnd | assembler/tokenizer.py:119 | `advance_past('*/')` stops just past a closing star and slash, or does not move |
| AsmTokenizer.SkipComment | assembler/tokenizer.py:118-121 | the comment loop ends just past a closing star and slash, further on in the code, or raises 'Comment not closed' |
| AsmTokenizer.CommentOnLastLine | assembler/tokenizer.py:118-121 | on the last line, a comment is closed iff star and slash occur on the rest of it, and the skip stops past the first such occurrence |
| AsmTokenizer.BlankStep | assembler/tokenizer.py:110-124 | a pass of the skip moves further on, and when it ends it leaves the code at a character none of the passes skips; it raises IndexError only on a line with no characters |
| AsmTokenizer.StepSpace | assembler/tokenizer.py:111-112 | whitespace is passed over one character at a time |
| AsmTokenizer.StepLine | assembler/tokenizer.py:114-115 | `//` skips the rest of the line |
| AsmTokenizer.StepComment | assembler/tokenizer.py:117-118 | slash, star opens a block comment |
| AsmTokenizer.StepEnd | assembler/tokenizer.py:123-124 | otherwise `advance_line` decides whether the skip goes on |
| AsmTokenizer.SkipBlank | assembler/tokenizer.py:105-124 | `skip_whitespace_and_comments` ends at a character none of the passes skips, never moves back, and raises only IndexError on an empty line or 'Comment not closed' |
| AsmTokenizer.LoopTurn | assembler/tokenizer.py:74-79 | a pass of the main loop moves further on and appends a token to the separated list, or raises a CompilerException |
| AsmTokenizer.Loop | assembler/tokenizer.py:74-79 | the main loop keeps the list separated and its tokens a prefix, and raises only CompilerExceptions on a text with characters |
| AsmTokenizer.AddedSeparated | assembler/tokenizer.py:81-103 | adding a token read from the code keeps the list separated, the old tokens first |
| AsmTokenizer.OpenedReady | assembler/tokenizer.py:65 | the LinedCode a str opens on is ready to be read, its first line non-empty iff the text has characters; it opens the text with the corrected `Code(str)` of the Finding at text_utils/code.py:29 and the corrected start of the Finding at text_utils/code.py:175-178, where the program as written raises TypeError on every str |
| AsmTokenizer.Tokenized | assembler/tokenizer.py:64-348 | `tokenize` gives a separated list; a text with no characters raises IndexError, and any other exception is a CompilerException; it opens the text with the corrected `Code(str)` of the Finding at text_utils/code.py:29 and the corrected start of the Finding at text_utils/code.py:175-178, where the program as written raises TypeError on every str |
| AsmTokenizer.TokenizedAsWritten | assembler/tokenizer.py:64-67 | the as-written half of the Finding at text_utils/code.py:29: as written, `Tokenizer(text)` raises TypeError on every text, which the corrected Tokenized never raises |
| AsmTokenizer.Tokenizer.constructor | assembler/tokenizer.py:64-67 | the tokenizer starts on the opened LinedCode with no tokens; it opens the text with the corrected `Code(str)` of the Finding at text_utils/code.py:29 and the corrected start of the Finding at text_utils/code.py:175-178, where the program as written raises TypeError on every str |
| AsmTokenizer.Tokenizer.MatchChar | text_utils/code.py:101-115 | `match` of one character moves one on exactly when it is next |
| AsmTokenizer.Tokenizer.MatchPair | text_utils/code.py:101-115 | `match` of two characters moves two on exactly when they are next |
| AsmTokenizer.Tokenizer.MatchPrefix | assembler/tokenizer.py:201-270 | `match(ab, aB)` moves two on exactly when either pair is next |
| AsmTokenizer.Tokenizer.MatchRange | text_utils/code.py:117-131 | `match_range` raises IndexError on an empty line, and otherwise passes over the next character iff it is in range |
| AsmTokenizer.Tokenizer.Advance | text_utils/code.py:70-81 | `advance(n)` inside the line moves the offset by n |
| AsmTokenizer.Tokenizer.AddToken | assembler/tokenizer.py:81-103 | the tokens become those of `addtoken` and the result is the last one |
| AsmTokenizer.Tokenizer.AddRead | assembler/tokenizer.py:217 | `addtoken` of the text passed over since `start` |
| AsmTokenizer.Tokenizer.ReadBinDigit | assembler/tokenizer.py:204-215 | a binary digit is passed over and read, or nothing moves |
| AsmTokenizer.Tokenizer.BinDigits | assembler/tokenizer.py:211-217 | the loop ends at the end of the binary run with the value of its digits |
| AsmTokenizer.Tokenizer.ReadHexDigit | assembler/tokenizer.py:274-282 | a hex digit is passed over and read; on any other character nothing moves |
| AsmTokenizer.Tokenizer.HexDigits | assembler/tokenizer.py:279-284 | the loop ends at the end of the hex run with the value of its digits |
| AsmTokenizer.Tokenizer.RangedDigits | assembler/tokenizer.py:231-256 | the octal and decimal loops end at the end of the run with the value of its digits |
| AsmTokenizer.Tokenizer.TokenizeBin | assembler/tokenizer.py:190-217 | the result, cursor and tokens are what ScanBin finds, added |
| AsmTokenizer.Tokenizer.TokenizeHex | assembler/tokenizer.py:258-284 | the result, cursor and tokens are what ScanHex finds, added |
| AsmTokenizer.Tokenizer.TokenizeOct | assembler/tokenizer.py:219-236 | the result, cursor and tokens are what ScanOct finds, added |
| AsmTokenizer.Tokenizer.TokenizeDec | assembler/tokenizer.py:238-256 | the result, cursor and tokens are what ScanDec finds, added |
| AsmTokenizer.Tokenizer.TokenizeChar | assembler/tokenizer.py:286-321 | the result, cursor and tokens are what ScanChar finds, added |
| AsmTokenizer.Tokenizer.WordFrom | assembler/tokenizer.py:145-149 | the loop builds the word up to its end |
| AsmTokenizer.Tokenizer.TokenizeWord | assembler/tokenizer.py:126-159 | the result, cursor and tokens are what ScanWord finds, added |
| AsmTokenizer.Tokenizer.TokenizeSymbol | assembler/tokenizer.py:161-170 | the result, cursor and tokens are what ScanSymbol finds, added |
| AsmTokenizer.Tokenizer.TokenizeInt | assembler/tokenizer.py:172-188 | the loop over the readers gives what ScanInt finds, added |
| AsmTokenizer.Tokenizer.TokenizeAny | assembler/tokenizer.py:75-77 | the three readers tried in turn give what ScanToken finds, added |
| AsmTokenizer.Tokenizer.SkipPass | assembler/tokenizer.py:110-124 | one pass of the skip does what BlankStep says |
| AsmTokenizer.Tokenizer.SkipWhitespaceAndComments | assembler/tokenizer.py:105-124 | the loop leaves the state SkipBlank gives, or raises its error |
| AsmTokenizer.Tokenizer.SkipCommentBody | assembler/tokenizer.py:118-121 | the comment loop leaves the state SkipComment gives, or raises its error |
| AsmTokenizer.Tokenizer.RunPass | assembler/tokenizer.py:75-79 | one pass of the main loop does what LoopTurn says |
| AsmTokenizer.Tokenizer.Run | assembler/tokenizer.py:72-79 | the constructor's loop gives the tokens Scanned gives, or its error |
| AsmTokenizer.PerformNothing | assembler/tokenizer.py:143-248 | a reader that finds nothing changes nothing, and any other reader adds a token or raises |
| AsmTokenizer.PerformToken | assembler/tokenizer.py:75-77 | the first of the three readers that does not find nothing decides |
| AsmTokenizer.Tokenize | assembler/tokenizer.py:323-348 | `tokenize(file)` on the file's text gives Tokenized; it opens the text with the corrected `Code(str)` of the Finding at text_utils/code.py:29 and the corrected start of the Finding at text_utils/code.py:175-178, where the program as written raises TypeError on every str |
| AsmParsing.Primary | assembler/parser.py:330-371 | an integer literal is accepted iff it lies in -32768..65535, else a ValueError-kind CompilerException; an identifier is accepted iff it is a defined constant, whose value it gives and whose use it records; every success moves on within the line |
| AsmParsing.Unary | assembler/parser.py:313-329 | a unary expression moves on within the line and records no label use; what it computes is stated by AsmExpressions.UnaryReads and AsmExpressions.SignsRead |
| AsmParsing.ArithmeticLoop | assembler/parser.py:299-312 | the loop over `+` and `-` moves on within the line; what it computes is stated by AsmExpressions.ArithmeticRound and AsmExpressions.LoopsEnd |
| AsmParsing.AddingOp | assembler/parser.py:304-310 | the operator is `+` or `-` exactly when that symbol is next |
| AsmParsing.Arithmetic | assembler/parser.py:299-312 | an arithmetic expression moves on within the line; what it computes is stated by AsmExpressions.ArithmeticReads |
| AsmParsing.AndLoop | assembler/parser.py:290-298 | the loop over `&` moves on within the line; what it computes is stated by AsmExpressions.AndRound and AsmExpressions.LoopsEnd |
| AsmParsing.And | assembler/parser.py:290-298 | an and expression moves on within the line; what it computes is stated by AsmExpressions.AndReads |
| AsmParsing.OrLoop | assembler/parser.py:281-289 | the loop over `\|` moves on within the line; what it computes is stated by AsmExpressions.OrRound |
| AsmParsing.Or | assembler/parser.py:281-289 | an or expression moves on within the line; what it computes is stated by AsmExpressions.ExpressionReads |
| AsmParsing.ConstantExpression | assembler/parser.py:273-279 | an identifier that is no constant is returned as an `identifier` token, one token on, with its use appended to the used labels; any other start gives the `integer` token of `parse_or_expression`'s value and state, or its error |
| AsmExpressions.Level | assembler/parser.py:254-263 | the binding strength of an expression tree is at most 4: a primary 4, a signed primary 3, `+`/`-` 2, `&` 1, `\|` 0 |
| AsmExpressions.Wrap | assembler/parser.py:258-263 | an operand is bracketed exactly when it binds more loosely than its place requires, after which it binds tightly enough |
| AsmExpressions.Spell | assembler/parser.py:241-263 | every expression tree is written as a non-empty run of tokens of the grammar |
| AsmExpressions.SignRound | assembler/parser.py:313-329 | `parse_unary_expression` at a '-' or '!' flips that sign's parity and moves on; at any other token it reads a primary, negates it when the minus parity is odd, then inverts it when the invert parity is odd |
| AsmExpressions.BracketRound | assembler/parser.py:353-363 | `parse_primary` at '(' reads an or-expression; a ')' after it closes the bracket, the end of the line is 'Unmatched bracket', any other token 'Expected closing bracket' |
| AsmExpressions.AtomReads | assembler/parser.py:330-351 | a literal or a name reads as its Eval value, one token on, or fails with Eval's range or name error |
| AsmExpressions.BracketReads | assembler/parser.py:353-363 | a bracketed expression reads as the expression inside it, the state moving past the closing bracket |
| AsmExpressions.PrimaryReads | assembler/parser.py:330-363 | `parse_primary` on the spelling of a primary gives its Eval value and stops after it, having recorded the constants it names; or it raises Eval's error |
| AsmExpressions.SignsBase | assembler/parser.py:322-329 | a primary after the signs gives its value negated by an odd minus parity, then inverted by an odd invert parity |
| AsmExpressions.SignsRead | assembler/parser.py:313-329 | a run of signs before a primary is read by its parities: the value is negated iff there is an odd number of '-', then inverted iff an odd number of '!' |
| AsmExpressions.UnaryReads | assembler/parser.py:313-329 | `parse_unary_expression` on the spelling of a unary expression gives its Eval value and state, or Eval's error |
| AsmExpressions.ArithmeticRound | assembler/parser.py:299-312 | one round of the `+`/`-` loop: the next unary expression combined with the value so far by the operator |
| AsmExpressions.LoopsEnd | assembler/parser.py:290-312 | the `+`/`-` loop stops at a token that is neither, and the `&` loop at a token that is not '&', leaving value and state as they are |
| AsmExpressions.AndRound | assembler/parser.py:290-298 | one round of the `&` loop: the next arithmetic expression and-ed with the value so far |
| AsmExpressions.OrRound | assembler/parser.py:281-289 | one round of the `\|` loop: the next and-expression or-ed with the value so far |
| AsmExpressions.UnaryValue | assembler/parser.py:313-329 | the right operand of `l + r` or `l - r` reads as its Eval value and stops right after its spelling, or raises Eval's error |
| AsmExpressions.SumLeftReads | assembler/parser.py:299-312 | the left operand of `l + r` or `l - r` is read up to the sign, with the loop going on from there with its value, or fails with its error |
| AsmExpressions.SumChain | assembler/parser.py:299-312 | `l + r` or `l - r` fails with the first error of its operands or of the operator, or continues the loop with the combined value |
| AsmExpressions.SumReads | assembler/parser.py:299-312 | `l + r` and `l - r` are read as Eval of the tree, left operand first, the loop continuing after them |
| AsmExpressions.ArithmeticReads | assembler/parser.py:299-312 | `parse_arithmetic_expression` on the spelling of an arithmetic expression fails with Eval's error, or continues its loop with Eval's value after the spelling |
| AsmExpressions.AndChain | assembler/parser.py:290-298 | `l & r` fails with the first error of its operands or of `&`, or continues the loop with the and of their values |
| AsmExpressions.AndLeftReads | assembler/parser.py:290-293 | the left operand of `l & r` is read up to the '&' |
| AsmExpressions.ArithmeticValue | assembler/parser.py:294-296 | an arithmetic expression followed by neither '+' nor '-', such as the right operand of `l & r`, reads as its Eval value and stops right after its spelling, or raises Eval's error |
| AsmExpressions.AndBinaryReads | assembler/parser.py:290-298 | `l & r` is read as Eval of the tree, the loop continuing after it |
| AsmExpressions.AndReads | assembler/parser.py:290-298 | `parse_and_expression` on the spelling of an and-expression fails with Eval's error, or continues its loop with Eval's value after the spelling |
| AsmExpressions.OrChain | assembler/parser.py:281-289 | `l \| r` fails with the first error of its operands or of `\|`, or continues the loop with the or of their values |
| AsmExpressions.OrLeftReads | assembler/parser.py:281-284 | the left operand of `l \| r` is read up to the '\|' |
| AsmExpressions.AndValue | assembler/parser.py:285-287 | an and-expression followed by none of '+', '-' and '&', such as the right operand of `l \| r`, reads as its Eval value and stops right after its spelling, or raises Eval's error |
| AsmExpressions.OrBinaryReads | assembler/parser.py:281-289 | `l \| r` is read as Eval of the tree, the loop continuing after it |
| AsmExpressions.OrReads | assembler/parser.py:281-289 | `parse_or_expression` on the spelling of an expression fails with Eval's error, or continues its loop with Eval's value after the spelling |
| AsmExpressions.ExpressionReads | assembler/parser.py:238-371 | on the spelling of any expression tree, followed by the end of the line or a token that continues no expression, `parse_or_expression` gives Eval of the tree under the constant table and stops after the spelling, having recorded the constants the tree names in order; or it raises exactly Eval's error |
| AsmExpressions.ConstantExpressionReads | assembler/parser.py:273-279 | on such a spelling that does not start with a name outside the constants, `parse_constant_expression` succeeds iff Eval does, giving the `integer` token of Eval's value after the spelling, or Eval's error |
| AsmExpressions.LabelReads | assembler/parser.py:273-276 | a name that is no constant is returned as an `identifier`, one token on, appended to the used labels, whatever follows it |
| AsmExpressions.WholeRow | assembler/parser.py:238-371 | a row that is exactly the spelling of a tree reads as that tree at the start of a program |
| AsmExpressions.NamelessRow | assembler/parser.py:238-371 | such a row with no names reads as the tree's value and ends at the end of the row |
| AsmExpressions.SpellBinary | assembler/parser.py:258-263 | an operator whose operands bind tightly enough is written between their spellings, with no brackets |
| AsmExpressions.SumAndSpelling | assembler/parser.py:262-263 | for unary x, y, z, `(x + y) & z` is written `x + y & z` |
| AsmExpressions.FallingSpelling | assembler/parser.py:262-263 | for unary x, y, z, w, `((x + y) & z) \| w` is written `x + y & z \| w` |
| AsmExpressions.PrecedenceFalling | assembler/parser.py:262-263 | the tokens `x + y & z \| w` are read as `((x + y) & z) \| w`: `+` binds tighter than `&`, which binds tighter than `\|` |
| AsmExpressions.RisingSpelling | assembler/parser.py:262-263 | `x \| (y & (z + w))` is written `x \| y & z + w` |
| AsmExpressions.PrecedenceRising | assembler/parser.py:262-263 | the tokens `x \| y & z + w` are read as `x \| (y & (z + w))` |
| AsmExpressions.LeftGrouping | assembler/parser.py:299-312 | `a - b - c` reads as `(a - b) - c` |
| AsmExpressions.RightGroupingBracketed | assembler/parser.py:299-363 | `a - (b - c)` is spelled with its brackets and reads as `a - (b - c)` |
| AsmExpressions.MinusInvert | assembler/parser.py:313-329 | `-!n` reads as `~(-n)`, n - 1: the signs are counted, then the negation applied before the inversion |
| AsmExpressions.InvertMinus | assembler/parser.py:313-329 | `!-n` also reads as n - 1: the order of the signs does not matter |
| AsmExpressions.MinusBracketInvert | assembler/parser.py:313-363 | `-(!n)` reads as `-(~n)`, n + 1, unlike `-!n` |
| AsmParsing.Reformat | assembler/parser.py:416-529 | filling in the instruction's name in a message keeps the outcome and the kind of the exception |
| AsmParsing.SelectedByte | assembler/parser.py:485 | only an int value has a byte to select |
| AsmParsing.SelectedByteValue | assembler/parser.py:485 | `ldb` selects the lower byte and `ldu` the upper, and a str raises TypeError |
| AsmParsing.ComplementByte | assembler/parser.py:496-497 | a byte of 128 or more complements to 255 minus it, below 128, and complementing again restores it |
| AsmParsing.AppendedLoad | assembler/parser.py:472-498 | with no index, `write_load` appends what it emits |
| AsmParsing.AppendedLoadWith | assembler/parser.py:472-498 | with no index, both spellings of `write_load` append what they emit and return how many instructions that is |
| AsmParsing.InsertAtEnd | assembler/parser.py:473-474 | inserting at the length appends |
| AsmParsing.InsertBeforeLast | assembler/parser.py:493-497 | the two inserts at one index put the load before the `not L L` |
| AsmParsing.LoadAppends | assembler/parser.py:429-503 | an identifier is loaded as it is; an int byte below 128 becomes `ldb b`, otherwise `ldb 255-b` then `not L L`; a str raises TypeError and any other kind BaseException; it emits the corrected `ldb` of the Finding at assembler/parser.py:497 for a complemented upper byte of 128 or more, where the program as written emits `ldu` |
| AsmParsing.UpperByteLoad | assembler/parser.py:496-498 | an upper byte of 128 or more emits the complemented load and then `not L L` |
| AsmParsing.UpperComplementAsWritten | assembler/parser.py:497 | as written, the complemented upper byte is written as `ldu`, which the code writer cannot encode |
| AsmParsing.UpperComplement | assembler/parser.py:486-498 | corrected, it is an `ldb` of the complement, which encodes as 0x80 with the complement |
| AsmParsing.LoweredLoad | assembler/parser.py:489-497 | a load the parser emits reaches the code writer as that instruction on that number |
| AsmParsing.LoadEncodings | assembler/parser.py:488-489 | `ldb n` for n in 0..127 encodes as 0x80 with n, while `ldu` has no encoding |
| AsmParsing.Lda | assembler/parser.py:505-529 | `lda` stays on the line, keeps labels and constants, and only appends instructions; it emits the corrected `ldb` of the Finding at assembler/parser.py:497 for a complemented upper byte of 128 or more, where the program as written emits `ldu` |
| AsmParsing.LdaOrder | assembler/parser.py:521-525 | `lda` emits the upper byte's load, `mov L H`, then the lower byte's load; for a label, `ldu name`, `mov L H`, `ldb name`; it emits the corrected `ldb` of the Finding at assembler/parser.py:497 for a complemented upper byte of 128 or more, where the program as written emits `ldu` |
| AsmParsing.Operands | assembler/parser.py:393-405 | an instruction takes as many operands as its format lists |
| AsmParsing.Instruction | assembler/parser.py:372-427 | a keyword with a format succeeds iff the tokens after it have the listed types, else an argument CompilerException; on success it appends the keyword with its operands and moves past them; no other state changes, and a false result changes nothing |
| AsmParsing.Pseudo | assembler/parser.py:410-427 | `ldb`, `ldu` and `lda` stay on the line and only append instructions; a false result changes nothing; it emits the corrected `ldb` of the Finding at assembler/parser.py:497 for a complemented upper byte of 128 or more, where the program as written emits `ldu` |
| AsmParsing.Label | assembler/parser.py:180-202 | an identifier followed by `:` defines a label at the current instruction count and moves past both, unless the name is already a label or a constant; otherwise nothing changes |
| AsmParsing.Definition | assembler/parser.py:203-237 | `define` is handled exactly when it is next; a name already defined raises, and otherwise the constant's value is the expression after the name |
| AsmParsing.Statement | assembler/parser.py:147-179 | a statement stays on its line and only appends instructions; it emits the corrected `ldb` of the Finding at assembler/parser.py:497 for a complemented upper byte of 128 or more, where the program as written emits `ldu` |
| AsmParsing.ProgramTurn | assembler/parser.py:147-179 | a pass of the program loop moves to the next line or finishes at the last; it emits the corrected `ldb` of the Finding at assembler/parser.py:497 for a complemented upper byte of 128 or more, where the program as written emits `ldu` |
| AsmParsing.Program | assembler/parser.py:147-179 | `parse_program` reads every line and only appends instructions; it emits the corrected `ldb` of the Finding at assembler/parser.py:497 for a complemented upper byte of 128 or more, where the program as written emits `ldu` |
| AsmParsing.StatementKeepsTables | assembler/parser.py:147-237 | a statement keeps labels and constants apart, and every label points into the instructions |
| AsmParsing.ProgramKeepsTables | assembler/parser.py:147-179 | so does the whole program |
| AsmParsing.ParseDelivers | assembler/parser.py:73-100 | a parse starts with two `nop`s and ends with `hlt`, its labels point into the program and are no constants; it fails with a NAME CompilerException iff a used label is undefined, and an empty token list raises IndexError |
| AsmParser.Parser.constructor | assembler/parser.py:73-81 | the parser starts at line 0, index 0, with two `nop`s and empty tables |
| AsmParser.Parser.AddInstruction | assembler/parser.py:134-146 | `addinstr` appends the instruction and returns True |
| AsmParser.Parser.ParsePrimary | assembler/parser.py:330-371 | the result and new state are those of Primary |
| AsmParser.Parser.ParseUnary | assembler/parser.py:313-329 | the result and new state are those of Unary, whose value on a spelled expression AsmExpressions.UnaryReads states |
| AsmParser.Parser.ParseArithmetic | assembler/parser.py:299-312 | the loop gives the result and new state of Arithmetic, whose value on a spelled expression AsmExpressions.ArithmeticReads states |
| AsmParser.Parser.ParseAnd | assembler/parser.py:290-298 | the loop gives the result and new state of And, whose value on a spelled expression AsmExpressions.AndReads states |
| AsmParser.Parser.ParseOr | assembler/parser.py:281-289 | the loop gives the result and new state of Or, whose value on a spelled expression AsmExpressions.ExpressionReads states |
| AsmParser.Parser.ParseConstantExpression | assembler/parser.py:238-280 | the result and new state are those of ConstantExpression, whose value on a spelled expression AsmExpressions.ConstantExpressionReads and AsmExpressions.LabelReads state |
| AsmParser.Parser.ParseLabel | assembler/parser.py:180-202 | the result and new state are those of Label |
| AsmParser.Parser.ParseDefinition | assembler/parser.py:203-237 | the result and new state are those of Definition |
| AsmParser.Parser.WriteLoad | assembler/parser.py:429-503 | the result and new state are those of the corrected Load; it emits the corrected `ldb` of the Finding at assembler/parser.py:497 for a complemented upper byte of 128 or more, where the program as written emits `ldu` |
| AsmParser.Parser.WriteLda | assembler/parser.py:505-529 | the outcome and new state are those of Lda; it emits the corrected `ldb` of the Finding at assembler/parser.py:497 for a complemented upper byte of 128 or more, where the program as written emits `ldu` |
| AsmParser.Parser.ReadOperands | assembler/parser.py:393-405 | the loop succeeds iff the operands fit the format, gives them, and otherwise raises the argument error |
| AsmParser.Parser.ParseInstruction | assembler/parser.py:372-427 | the result and new state are those of Instruction |
| AsmParser.Parser.ParsePseudo | assembler/parser.py:410-427 | the result and new state are those of Pseudo; it emits the corrected `ldb` of the Finding at assembler/parser.py:497 for a complemented upper byte of 128 or more, where the program as written emits `ldu` |
| AsmParser.Parser.ParseStatement | assembler/parser.py:147-179 | the outcome and new state are those of Statement; it emits the corrected `ldb` of the Finding at assembler/parser.py:497 for a complemented upper byte of 128 or more, where the program as written emits `ldu` |
| AsmParser.Parser.ParseProgram | assembler/parser.py:147-179 | the loop over the lines gives the outcome and new state of Program; it emits the corrected `ldb` of the Finding at assembler/parser.py:497 for a complemented upper byte of 128 or more, where the program as written emits `ldu` |
| AsmParser.Parser.CheckLabels | assembler/parser.py:85-89 | the check passes iff every used label is defined, and otherwise raises a NAME CompilerException |
| AsmParser.Parse | assembler/parser.py:73-100 | the parser's output is Parse; it emits the corrected `ldb` of the Finding at assembler/parser.py:497 for a complemented upper byte of 128 or more, where the program as written emits `ldu` |
| Grammar.ProcessError | hadloc/grammar/grammar.py:117-130 | `process_error` never lowers the error offset, takes the other symbol's mark exactly when it lies further on, and changes no other symbol |
| Grammar.Match | hadloc/grammar/grammar.py:155-166 | a match that ends stops at or after its start, and a failed one is back at its start; it matches a Terminal with the corrected TerminalMatch of the Finding at hadloc/grammar/grammar.py:309, so an accepted token gives a node where the program as written raises TypeError |
| Grammar.TerminalMatch | hadloc/grammar/grammar.py:303-312 | a Terminal consumes one token iff one is left and the predicate holds, giving a node named after the symbol with the token as its value; otherwise the offset is unchanged, and a rejected token records the symbol's own error at the offset |
| Grammar.TerminalMatchAsWritten | hadloc/grammar/grammar.py:309 | as written, every accepted token raises TypeError; a rejected token or the end of the list gives what the corrected Terminal gives |
| Grammar.SequentialFrom | hadloc/grammar/grammar.py:182-199 | the loop of a Sequential never moves before its start, and a failure restores the start offset; it matches a Terminal with the corrected TerminalMatch of the Finding at hadloc/grammar/grammar.py:309, so an accepted token gives a node where the program as written raises TypeError |
| Grammar.RepeatedFrom | hadloc/grammar/grammar.py:222-243 | the loop of a Repeated never moves before its start, and a failure restores the start offset; it matches a Terminal with the corrected TerminalMatch of the Finding at hadloc/grammar/grammar.py:309, so an accepted token gives a node where the program as written raises TypeError |
| Grammar.OneOfFrom | hadloc/grammar/grammar.py:274-286 | the loop of a OneOf stops at or after the offset, and a failure leaves the offset as it was; it matches a Terminal with the corrected TerminalMatch of the Finding at hadloc/grammar/grammar.py:309, so an accepted token gives a node where the program as written raises TypeError |
| Grammar.Parse | hadloc/grammar/grammar.py:132-152 | a failed parse raises a Syntax CompilerException with the symbol's message, or IndexError where `tokens[self.error_offset]` has no token, as it always does for an empty list; it matches a Terminal with the corrected TerminalMatch of the Finding at hadloc/grammar/grammar.py:309, so an accepted token gives a node where the program as written raises TypeError |
| Grammar.MatchIgnoresErrors | hadloc/grammar/grammar.py:112-130 | the error fields and ancestor nodes decide only messages: success, the node built and the end offset are the same whatever marks an earlier match left |
| Grammar.SequentialIgnoresErrors | hadloc/grammar/grammar.py:182-199 | the same for the loop of a Sequential |
| Grammar.RepeatedIgnoresErrors | hadloc/grammar/grammar.py:222-243 | the same for the loop of a Repeated |
| Grammar.OneOfIgnoresErrors | hadloc/grammar/grammar.py:274-286 | the same for the loop of a OneOf |
| Grammar.Chain | hadloc/grammar/grammar.py:185-190 | matching symbols one after another ends at or after the offset, inside the tokens |
| Grammar.SequentialMatchesAll | hadloc/grammar/grammar.py:182-199 | a Sequential succeeds iff each of its symbols matches in order, ending where the last one ends; on failure it is back at its start |
| Grammar.SequentialChain | hadloc/grammar/grammar.py:185-199 | the same from the k-th symbol of the loop |
| Grammar.RepeatedNeverFails | hadloc/grammar/grammar.py:226-243 | once the minimum count is reached a Repeated cannot fail |
| Grammar.OptionalNeverFails | hadloc/grammar/grammar.py:246-248 | Optional, a Repeated from 0 to 1, never fails |
| Grammar.ZeroOrMoreNeverFails | hadloc/grammar/grammar.py:251-253 | ZeroOrMore, a Repeated from 0 without a maximum, never fails |
| Grammar.OneOrMoreFails | hadloc/grammar/grammar.py:256-258 | OneOrMore, a Repeated from 1 without a maximum, fails iff the first match of its symbol fails |
| Grammar.SequentialKeepsType | hadloc/grammar/grammar.py:184-199 | the node of a Sequential keeps the type and value it was created with |
| Grammar.RepeatedKeepsType | hadloc/grammar/grammar.py:224-243 | the node of a Repeated keeps the type and value it was created with |
| Grammar.MatchNamesNode | hadloc/grammar/grammar.py:184-309 | the node a Terminal, Sequential or Repeated builds has the symbol's name as its type; a Terminal's holds the token, the others' the auto_name flag passed as the value; it matches a Terminal with the corrected TerminalMatch of the Finding at hadloc/grammar/grammar.py:309, so an accepted token gives a node where the program as written raises TypeError |
| Grammar.RepeatedCounts | hadloc/grammar/grammar.py:226-243 | when each match adds one child, a successful Repeated has at least the minimum of children or has reached the maximum, and never more than the maximum |
| Grammar.RepeatedMatchCounts | hadloc/grammar/grammar.py:222-243 | the same for a Repeated matched from its start |
| Grammar.OneOfFirstMatch | hadloc/grammar/grammar.py:274-286 | a OneOf gives the outcome of its first alternative that matches, after all earlier ones failed, and fails iff every alternative fails |
| Grammar.OneOfFromFirst | hadloc/grammar/grammar.py:275-286 | the same from the k-th alternative of the loop |
| Grammar.ParseOutcome | hadloc/grammar/grammar.py:148-152 | `parse` succeeds iff the symbol matches from offset 0 and uses every token, giving that node, and loops iff the match loops |
| Grammar.MatchKeepsOthers | hadloc/grammar/grammar.py:112-130 | a match writes the error fields only of the symbols inside the matched one: every other symbol keeps its error offset and message |
| Grammar.SequentialKeepsOthers | hadloc/grammar/grammar.py:182-199 | the same for the loop of a Sequential |
| Grammar.RepeatedKeepsOthers | hadloc/grammar/grammar.py:222-243 | the same for the loop of a Repeated |
| Grammar.OneOfKeepsOthers | hadloc/grammar/grammar.py:274-286 | the same for the loop of a OneOf |
| Grammar.ErrorChoice | hadloc/grammar/grammar.py:69-80 | the error rule: a Terminal that rejects a token reports its own error at that token; a failed Sequential, Repeated or OneOf whose error offset is its start reports its own error there, with its ancestors (and, for a Sequential or Repeated, its own node) as the generator's argument; and a symbol not held inside itself never moves its error offset back, so the error it keeps is the furthest one seen; over the corrected Terminal of the Finding at hadloc/grammar/grammar.py:309 |
| Grammar.SequentialErrorChoice | hadloc/grammar/grammar.py:182-199 | the same for the loop of a Sequential |
| Grammar.RepeatedErrorChoice | hadloc/grammar/grammar.py:222-243 | the same for the loop of a Repeated |
| Grammar.OneOfErrorChoice | hadloc/grammar/grammar.py:274-286 | the same for the loop of a OneOf |
| Grammar.FailingChildError | hadloc/grammar/grammar.py:185-199 | when the k-th symbol of a Sequential fails, the Sequential fails and takes that symbol's error if it lies past the start and past the error it held, and reports its own error at the start when neither gets past the start |
| Matching.Matcher.constructor | hadloc/grammar/grammar.py:100-102 | the matcher starts with the given error fields |
| Matching.Matcher.CreateError | hadloc/grammar/grammar.py:112-115 | `create_error` sets the symbol's error offset to the given offset and its message to what its error generator makes of the ancestor nodes, and changes no other symbol |
| Matching.Matcher.ProcessError | hadloc/grammar/grammar.py:117-130 | the new marks are those of ProcessError |
| Matching.Matcher.Match | hadloc/grammar/grammar.py:155-166 | the node, new offset and marks are those of Match; it matches a Terminal with the corrected TerminalMatch of the Finding at hadloc/grammar/grammar.py:309, so an accepted token gives a node where the program as written raises TypeError |
| Matching.Matcher.MatchTerminal | hadloc/grammar/grammar.py:303-312 | the node, new offset and marks are those of TerminalMatch; it matches a Terminal with the corrected TerminalMatch of the Finding at hadloc/grammar/grammar.py:309, so an accepted token gives a node where the program as written raises TypeError |
| Matching.Matcher.MatchSequential | hadloc/grammar/grammar.py:182-199 | the loop gives the node, new offset and marks of Match for a Sequential; it matches a Terminal with the corrected TerminalMatch of the Finding at hadloc/grammar/grammar.py:309, so an accepted token gives a node where the program as written raises TypeError |
| Matching.Matcher.MatchRepeated | hadloc/grammar/grammar.py:222-243 | the loop gives the node, new offset and marks of Match for a Repeated; it matches a Terminal with the corrected TerminalMatch of the Finding at hadloc/grammar/grammar.py:309, so an accepted token gives a node where the program as written raises TypeError |
| Matching.Matcher.MatchOneOf | hadloc/grammar/grammar.py:274-286 | the loop gives the node, new offset and marks of Match for a OneOf; it matches a Terminal with the corrected TerminalMatch of the Finding at hadloc/grammar/grammar.py:309, so an accepted token gives a node where the program as written raises TypeError |
| Matching.Matcher.Parse | hadloc/grammar/grammar.py:132-152 | the result and new marks are those of Parse; it matches a Terminal with the corrected TerminalMatch of the Finding at hadloc/grammar/grammar.py:309, so an accepted token gives a node where the program as written raises TypeError |
| SyntaxTree.NewNode | hadloc/grammar/abstract_syntax_tree.py:33-36 | a new node has the given type and value and no children |
| SyntaxTree.AddChildSplices | hadloc/grammar/abstract_syntax_tree.py:38-52 | `add_child` keeps the node's type and value and appends the child when it has a type, otherwise its nearest typed descendants in order; every appended node has a type |
| SyntaxTree.AddEachSplices | hadloc/grammar/abstract_syntax_tree.py:50-52 | the loop over a None-typed child's children appends their spliced nodes in order |
| SyntaxTree.AddChildKeepsTyped | hadloc/grammar/abstract_syntax_tree.py:38-52 | a node whose children all have a type keeps that after `add_child` |
| SyntaxTree.ToDict | hadloc/grammar/abstract_syntax_tree.py:54-61 | `to_dict` keeps the type, has 'children' iff there are children, one per child, and 'value' iff the value is not None, holding its string |
| SyntaxTree.ToDicts | hadloc/grammar/abstract_syntax_tree.py:58 | one dict per remaining child |
| SyntaxTree.ToDictChildren | hadloc/grammar/abstract_syntax_tree.py:57-58 | entry j of 'children' is the dict of child j |
| SyntaxTree.ToDictsAt | hadloc/grammar/abstract_syntax_tree.py:58 | the same for the list from the k-th child |
| TokenLists.TokenList.constructor | hadloc/grammar/token_list.py:11-13 | a new list holds the tokens at offset 0 |
| TokenLists.TokenList.At | hadloc/grammar/token_list.py:15-17 | `tl[i]` is `tokens[offset + i]` under Python's indexing: a negative position counts from the end, and one outside the list raises IndexError |
| LegacyGrammar.NoErrors | grammar/grammar.py:53 | new symbols hold no exception |
| LegacyGrammar.ProcessError | grammar/grammar.py:59-65 | `process_error` ignores a child without an exception; it adopts the child's exception iff none is held or the child's offset is strictly greater, and then appends self to that exception's symbol chain, changing nothing else; the held offset never decreases |
| LegacyGrammar.Match | grammar/grammar.py:68-78 | a match that runs stops at or after its start, and a failed one is back at its start |
| LegacyGrammar.TerminalMatch | grammar/grammar.py:195-201 | `tokens[0]` raises IndexError iff no token is left; otherwise the Terminal consumes the token iff the predicate holds, giving a node with the symbol's name and the token, and else records a new exception at the offset |
| LegacyGrammar.SequentialFrom | grammar/grammar.py:95-107 | the loop of a Sequential never moves before its start, and a failure restores the start offset |
| LegacyGrammar.RepeatedFrom | grammar/grammar.py:130-160 | the loop of a Repeated never moves before its start, and a failure restores the start offset |
| LegacyGrammar.AnyOfFrom | grammar/grammar.py:175-182 | the loop of an AnyOf stops at or after the offset, and a failure leaves the offset as it was |
| LegacyGrammar.FirstNamed | grammar/grammar.py:27-32 | the loop over `symbols[1:]` finds the first symbol with a name, or none when no later symbol has one |
| LegacyGrammar.IndexOf | grammar/grammar.py:36 | `symbols.index(s)` is the first position of the symbol by identity, or absent when it is not there |
| LegacyGrammar.CompileMessage | grammar/grammar.py:22-40 | 'Unexpected token' when the failing symbol has no error name; AttributeError iff no later symbol is named; otherwise 'Invalid <parent>. Expected <name>' followed by exactly the suffix NameBefore gives for the parent and the symbol before it in the chain, and ValueError iff NameBefore raises it; an empty chain raises IndexError |
| LegacyGrammar.NameBefore | grammar/grammar.py:34-38 | ValueError iff the parent is a Sequential that does not hold the child; for a Sequential parent where the child sits at index i > 0 the suffix is exactly ' after ' and the error name (or 'None') of the parent's symbol i - 1; the empty suffix for any other parent or when the child is first |
| LegacyGrammar.MatchIgnoresErrors | grammar/grammar.py:59-65 | the exceptions decide only messages: success, node, end offset and whether a match raises are the same whatever exceptions the symbols hold |
| LegacyGrammar.SequentialIgnoresErrors | grammar/grammar.py:95-107 | the same for the loop of a Sequential |
| LegacyGrammar.RepeatedIgnoresErrors | grammar/grammar.py:130-160 | the same for the loop of a Repeated |
| LegacyGrammar.AnyOfIgnoresErrors | grammar/grammar.py:175-182 | the same for the loop of an AnyOf |
| LegacyGrammar.RepeatedNeverFails | grammar/grammar.py:134-160 | once the minimum count is reached a Repeated cannot fail |
| LegacyGrammar.DefaultRepetitionNeverFails | grammar/grammar.py:124-128 | a Repeated with the default minimum 0, and so `optional(symbol)`, never fails |
| LegacyGrammar.AnyOfFirstMatch | grammar/grammar.py:175-182 | an AnyOf gives the outcome of its first alternative that does not fail, after all earlier ones failed, and fails iff every alternative fails |
| LegacyGrammar.AnyOfFromFirst | grammar/grammar.py:176-182 | the same from the k-th alternative of the loop |
| LegacyGrammar.RepetitionRaisesAtEnd | grammar/grammar.py:134-196 | a Repeated without a maximum over a Terminal that accepts everything raises IndexError after consuming the last token |
| LegacyMatching.LegacyMatcher.constructor | grammar/grammar.py:53 | the symbols start without exceptions |
| LegacyMatching.LegacyMatcher.ProcessError | grammar/grammar.py:59-65 | the new exceptions are those of ProcessError |
| LegacyMatching.LegacyMatcher.Match | grammar/grammar.py:68-78 | the outcome, new offset and exceptions are those of Match |
| LegacyMatching.LegacyMatcher.MatchTerminal | grammar/grammar.py:195-201 | the outcome, new offset and exceptions are those of TerminalMatch |
| LegacyMatching.LegacyMatcher.MatchSequential | grammar/grammar.py:95-107 | the loop gives the outcome, new offset and exceptions of Match for a Sequential |
| LegacyMatching.LegacyMatcher.MatchRepeated | grammar/grammar.py:130-160 | the loop gives the outcome, new offset and exceptions of Match for a Repeated |
| LegacyMatching.LegacyMatcher.MatchAnyOf | grammar/grammar.py:175-182 | the loop gives the outcome, new offset and exceptions of Match for an AnyOf |
| LegacyMatching.CompileError | grammar/grammar.py:22-40 | the loop searching for the parent gives the message of CompileMessage |
| FileUtils.Reverse | utils.py:15 | `s[::-1]` has the same length and holds the characters back to front |
| FileUtils.Find | utils.py:15 | `find` gives -1 iff the character is absent, and otherwise its first position |
| FileUtils.LastIndex | utils.py:15-29 | the position of the last occurrence: it holds the character and no later position does, and -1 leaves none anywhere |
| FileUtils.LastIndexAbsent | utils.py:15-29 | the position is -1 iff the character does not occur |
| FileUtils.AfterLast | utils.py:15-29 | the slicing expression gives the text after the last occurrence, or '' when there is none |
| FileUtils.ReverseFind | utils.py:15-29 | searching the reversed text finds the last occurrence: absent iff absent, and at the mirrored position |
| FileUtils.Extension | utils.py:5-15 | `extension` is the lower-cased text after the last '.', or '' without a '.' |
| FileUtils.FileNameAsWritten | utils.py:18-29 | `file_name` as written is the lower-cased text after the last '/', and so '' without a '/' |
| FileUtils.FileName | utils.py:18-29 | the name without its directories, lower-cased, holds no '/', is the whole name lower-cased when there is no directory, and agrees with the code otherwise |
| FileUtils.LowerKeepsSlash | utils.py:29 | lower-casing neither adds nor removes a '/' |
| FileUtils.NameWithoutDirectory | utils.py:18-29 | 'prog.asm' gets the name '' as written and 'prog.asm' as documented |
| FileUtils.VerifyFile | utils.py:32-57 | FileError with the given message iff the extension differs; otherwise the name is the result, '.' and a text whose lower case is the extension; a name without '.' passes only for an empty `ext`, and then loses its last character |
| FileUtils.SplitsAtExtension | utils.py:52-57 | cutting the extension and its '.' off the end leaves a base that, with '.' and the rest, gives back the name |
| Writer.BinaryDigits | writer.py:96-103 | the collected list holds only 0s and 1s, never more than the characters |
| Writer.BinaryDigitsAppend | writer.py:99-103 | the digits of two texts in a row are the digits of each in order |
| Writer.OtherCharactersIgnored | writer.py:99-103 | inserting a character other than '0' and '1' changes nothing |
| Writer.Group | writer.py:106-108 | byte i takes between 1 and 8 bits |
| Writer.Pack | writer.py:105 | there are `ceil(len(bits) / 8)` bytes |
| Writer.WeightedBound | writer.py:107-108 | the partial sums of a byte stay below 256 and leave the bits still to come free |
| Writer.PackedBytes | writer.py:105-110 | every packed value is in 0..255, so `bytes(data)` never raises |
| Writer.BitsOfAt | writer.py:108 | element k of the n bits of v is bit n-1-k of v |
| Writer.BitPosition | writer.py:106-108 | bit 7-k of byte i is bit k of group i, and positions past the last bit are 0 |
| Writer.PackRoundTrip | writer.py:105-110 | reading the bytes back highest bit first gives the bits followed by the zero padding of the last byte |
| Writer.ReadDataFromText | writer.py:79-110 | the FileError of `verify_file` for a name without the '.txt' extension, otherwise the packed bits of the text |
| Writer.CollectBits | writer.py:99-103 | the loop collects the binary digits of the text |
| Writer.PackBits | writer.py:105-108 | the nested loops give the packed bytes in a new array |
| Writer.WriteHeader | writer.py:63 | `[ord('w'), (n-1)>>8, (n-1)%256]` for 1 to 65536 bytes; ValueError otherwise, where a header value falls outside a byte |
| Writer.ReadHeader | writer.py:114 | `[ord('r'), (n-1)>>8, (n-1)%256]` for 1 to 65536 bytes; ValueError otherwise |
| Writer.WriteData | writer.py:63-68 | the writes are the header and then chunks of 64 bytes, the last holding the rest, which together are the data in order; ValueError iff the header does not fit |

## Left out

- Input and output are not modelled: the serial link and the port menu of writer.py and controller.py, the file reads and the .bin and text files that `write_code` writes, the curses screens of the emulator (`Display.render`, `MemoryDisplay`, emulator/display.py), and the messages error.py prints. Texts that the source reads from files are parameters.
- The progress and time estimates of `write_data` use floats and the clock, and are not modelled. So is the fallback that sends a file's raw bytes when it is not a .txt file.
- emulator/word.py is not part of this model. Its words are bit-vectors of the width in use: `w[i]` is bit i, `w[:k]` the low k bits, `msb()` the highest set bit (no bit for 0), and `+` wraps and gives the carry.
- assembler/labelencoder.py, assembler/assembler.py, compiler/compiler.py and the translators are not part of this model. The parser is modelled against the token rows its own documentation describes.
- The parser's warnings about unused labels and constants are not modelled, because they are diagnostics printed in dictionary order. Error messages are kept as templates, without the token text formatted into them.
- CompilerException keeps its kind, its message and the values formatted into the message; the token it points at is dropped.
- Lower-casing in `FileUtils` covers the ASCII letters only, and `str.isspace` is the list of whitespace characters of Python's Unicode tables; all other Unicode case and character classes are not modelled.
- Grammar's `auto_name` argument only reaches the nodes as their value, as the code passes it; the grammars of the compiler that use it are not part of this model.
- Emulator.Computer.constructor: requires a program of at most 2^15 bytes; the source raises IndexError for a longer one.
- LegacyEmulator.Computer.Input: requires a byte, where the source stores any integer it is given.
- LegacyEmulator.Computer.WriteMem: requires a byte; every value the machine writes is a masked register.
- TextCode.LinedCode.constructor: requires a given PositionedString to have one coordinate per character, as every one the source builds does.
- TextCode.Code.SkipWhitespace: requires a non-negative offset; at a negative offset on whitespace the source would loop for ever, as `advance` moves it by nothing.
- CStringCode.Code.constructor: `Code(text)` with a PositionedString keeps the caller's object itself (cstring.py:26-27), so a later `stripwhitespace`, which deletes from that object in place, also changes the caller's string; the model copies the value, so this aliasing is not modelled.
- CStringLined.LinedCode methods require the cursor to be well formed, the invariant every method of the class keeps.
- Matching.Matcher.Match and the other match methods, and LegacyMatching.LegacyMatcher.Match and its siblings: require the match to end. A Repeated without a maximum whose symbol matches without consuming a token repeats for ever; the match functions report that case as a loop.
- Matching.Matcher.Parse: requires the parse to end, for the same reason.
- AsmParsing.Unary: its own contract states that it moves on within the line; what it computes on a spelled expression is stated by AsmExpressions.UnaryReads and AsmExpressions.SignsRead.
- AsmParsing.ArithmeticLoop: its own contract states that it moves on within the line; what one round computes is stated by AsmExpressions.ArithmeticRound, and where it stops by AsmExpressions.LoopsEnd.
- AsmParsing.Arithmetic: its own contract states that it moves on within the line; what it computes on a spelled expression is stated by AsmExpressions.ArithmeticReads.
- AsmParsing.AndLoop: its own contract states that it moves on within the line; what one round computes is stated by AsmExpressions.AndRound, and where it stops by AsmExpressions.LoopsEnd.
- AsmParsing.And: its own contract states that it moves on within the line; what it computes on a spelled expression is stated by AsmExpressions.AndReads.
- AsmParsing.OrLoop: its own contract states that it moves on within the line; what one round computes is stated by AsmExpressions.OrRound.
- AsmParsing.Or: its own contract states that it moves on within the line; what it computes on a spelled expression is stated by AsmExpressions.ExpressionReads.
- AsmParser.Parser.ParseUnary: its contract ties it to AsmParsing.Unary; the value is stated by AsmExpressions.UnaryReads.
- AsmParser.Parser.ParseArithmetic: its contract ties it to AsmParsing.Arithmetic; the value is stated by AsmExpressions.ArithmeticReads.
- AsmParser.Parser.ParseAnd: its contract ties it to AsmParsing.And; the value is stated by AsmExpressions.AndReads.
- AsmParser.Parser.ParseOr: its contract ties it to AsmParsing.Or; the value is stated by AsmExpressions.ExpressionReads.
- AsmParser.Parser.ParseConstantExpression: its contract ties it to AsmParsing.ConstantExpression; the value is stated by AsmExpressions.ConstantExpressionReads and AsmExpressions.LabelReads.
- AsmExpressions.ExpressionReads and the other reading lemmas cover token rows that spell an expression tree, up to a token that continues no expression. Rows with a stray operator or a missing operand are covered only by the error branches of AsmParsing.Primary.
- The `text` that `parse_or_expression` and its siblings build up on a CodeObject is not modelled; the expression functions compute the value only.
- CodeObjects.ValueEquality: compares CodeObjects whose values are str, as the equality tests use; a value of another type against a str or a PositionedString is not modelled.
- Writer.ReadDataFromText: takes the file's text as a parameter; a missing file is not modelled.

The rest of the model runs the corrected half of each Finding below. So the following members state the corrected behaviour, and not the program as written, on the inputs those Findings name:

- Emulator.Step: runs the corrected positive jump test `0 < X < 128` of the Finding at emulator/emulator.py:216, so `jgt` at X = 127 jumps where the program as written does not.
- Emulator.JumpInstructionStep: runs the corrected positive jump test `0 < X < 128` of the Finding at emulator/emulator.py:216, so `jgt` at X = 127 jumps where the program as written does not.
- Emulator.Computer.Jump: runs the corrected positive jump test `0 < X < 128` of the Finding at emulator/emulator.py:216, so `jgt` at X = 127 jumps where the program as written does not.
- Emulator.Computer.Decode: runs the corrected positive jump test `0 < X < 128` of the Finding at emulator/emulator.py:216, so `jgt` at X = 127 jumps where the program as written does not.
- Emulator.Computer.Execute: runs the corrected positive jump test `0 < X < 128` of the Finding at emulator/emulator.py:216, so `jgt` at X = 127 jumps where the program as written does not.
- LegacyEmulator.AluStep: runs the corrected ALU of the Findings at emulator.py:187-188 and emulator.py:173-175: op 14 is the bitwise or, where the program gives Python's logical `or`, and an add sets the carry from bit 8 of the sum, which the program never sets.
- LegacyEmulator.Computer.ExecuteAl: runs the corrected ALU of the Findings at emulator.py:187-188 and emulator.py:173-175: op 14 is the bitwise or, where the program gives Python's logical `or`, and an add sets the carry from bit 8 of the sum, which the program never sets.
- LegacyEmulator.Computer.Move: runs the corrected move of the Finding at emulator.py:94-97: `mov L Y` (0x2C) sets Y, where the program writes memory, and `mov X M` (0x3D) writes memory, where the program drops it.
- LegacyEmulator.JumpStep: runs the corrected jump tests of the Finding at emulator.py:104-110: 0x19 is taken for X in 1..127 only and 0x1C for X of 128 or more, where the program skips X = 127 in the first, takes 0x19 at X above 127, and never takes 0x1C.
- LegacyEmulator.Computer.Jump: runs the corrected jump tests of the Finding at emulator.py:104-110: 0x19 is taken for X in 1..127 only and 0x1C for X of 128 or more, where the program skips X = 127 in the first, takes 0x19 at X above 127, and never takes 0x1C.
- LegacyEmulator.Computer.Control: its jump branch runs the corrected jump tests of the Finding at emulator.py:104-110: 0x19 is taken for X in 1..127 only and 0x1C for X of 128 or more, where the program skips X = 127 in the first, takes 0x19 at X above 127, and never takes 0x1C.
- LegacyEmulator.Step: runs all four corrections of the legacy emulator's Findings (emulator.py:94-97, emulator.py:104-110, emulator.py:173-175, emulator.py:187-188): the move, jump and ALU results differ from the program as written on the inputs those Findings name.
- LegacyEmulator.Computer.Execute: runs all four corrections of the legacy emulator's Findings (emulator.py:94-97, emulator.py:104-110, emulator.py:173-175, emulator.py:187-188): the move, jump and ALU results differ from the program as written on the inputs those Findings name.
- CodeWriter.MachineCode: encodes `opd` and `opi` with the corrected check of the Finding at assembler/codewriter.py:118, so `opd H` is an Argument error where the program as written emits 0x0E.
- AsmParsing.LoadAppends: emits the corrected `ldb` of the Finding at assembler/parser.py:497 for a complemented upper byte of 128 or more, where the program as written emits `ldu` (so `lda 0x8000` gives `ldb 127`, not `ldu 127`).
- AsmParsing.Lda: emits the corrected `ldb` of the Finding at assembler/parser.py:497 for a complemented upper byte of 128 or more, where the program as written emits `ldu` (so `lda 0x8000` gives `ldb 127`, not `ldu 127`).
- AsmParsing.LdaOrder: emits the corrected `ldb` of the Finding at assembler/parser.py:497 for a complemented upper byte of 128 or more, where the program as written emits `ldu` (so `lda 0x8000` gives `ldb 127`, not `ldu 127`).
- AsmParsing.Pseudo: emits the corrected `ldb` of the Finding at assembler/parser.py:497 for a complemented upper byte of 128 or more, where the program as written emits `ldu` (so `lda 0x8000` gives `ldb 127`, not `ldu 127`).
- AsmParsing.Statement: emits the corrected `ldb` of the Finding at assembler/parser.py:497 for a complemented upper byte of 128 or more, where the program as written emits `ldu` (so `lda 0x8000` gives `ldb 127`, not `ldu 127`).
- AsmParsing.ProgramTurn: emits the corrected `ldb` of the Finding at assembler/parser.py:497 for a complemented upper byte of 128 or more, where the program as written emits `ldu` (so `lda 0x8000` gives `ldb 127`, not `ldu 127`).
- AsmParsing.Program: emits the corrected `ldb` of the Finding at assembler/parser.py:497 for a complemented upper byte of 128 or more, where the program as written emits `ldu` (so `lda 0x8000` gives `ldb 127`, not `ldu 127`).
- AsmParser.Parser.WriteLoad: emits the corrected `ldb` of the Finding at assembler/parser.py:497 for a complemented upper byte of 128 or more, where the program as written emits `ldu` (so `lda 0x8000` gives `ldb 127`, not `ldu 127`).
- AsmParser.Parser.WriteLda: emits the corrected `ldb` of the Finding at assembler/parser.py:497 for a complemented upper byte of 128 or more, where the program as written emits `ldu` (so `lda 0x8000` gives `ldb 127`, not `ldu 127`).
- AsmParser.Parser.ParsePseudo: emits the corrected `ldb` of the Finding at assembler/parser.py:497 for a complemented upper byte of 128 or more, where the program as written emits `ldu` (so `lda 0x8000` gives `ldb 127`, not `ldu 127`).
- AsmParser.Parser.ParseStatement: emits the corrected `ldb` of the Finding at assembler/parser.py:497 for a complemented upper byte of 128 or more, where the program as written emits `ldu` (so `lda 0x8000` gives `ldb 127`, not `ldu 127`).
- AsmParser.Parser.ParseProgram: emits the corrected `ldb` of the Finding at assembler/parser.py:497 for a complemented upper byte of 128 or more, where the program as written emits `ldu` (so `lda 0x8000` gives `ldb 127`, not `ldu 127`).
- AsmParser.Parse: emits the corrected `ldb` of the Finding at assembler/parser.py:497 for a complemented upper byte of 128 or more, where the program as written emits `ldu` (so `lda 0x8000` gives `ldb 127`, not `ldu 127`).
- Grammar.Match: matches a Terminal with the corrected TerminalMatch of the Finding at hadloc/grammar/grammar.py:309, so an accepted token gives a node where the program as written raises TypeError (Grammar.TerminalMatchAsWritten).
- Grammar.SequentialFrom: matches a Terminal with the corrected TerminalMatch of the Finding at hadloc/grammar/grammar.py:309, so an accepted token gives a node where the program as written raises TypeError (Grammar.TerminalMatchAsWritten).
- Grammar.RepeatedFrom: matches a Terminal with the corrected TerminalMatch of the Finding at hadloc/grammar/grammar.py:309, so an accepted token gives a node where the program as written raises TypeError (Grammar.TerminalMatchAsWritten).
- Grammar.OneOfFrom: matches a Terminal with the corrected TerminalMatch of the Finding at hadloc/grammar/grammar.py:309, so an accepted token gives a node where the program as written raises TypeError (Grammar.TerminalMatchAsWritten).
- Grammar.Parse: matches a Terminal with the corrected TerminalMatch of the Finding at hadloc/grammar/grammar.py:309, so an accepted token gives a node where the program as written raises TypeError (Grammar.TerminalMatchAsWritten).
- Grammar.MatchNamesNode: matches a Terminal with the corrected TerminalMatch of the Finding at hadloc/grammar/grammar.py:309, so an accepted token gives a node where the program as written raises TypeError (Grammar.TerminalMatchAsWritten).
- Grammar.ErrorChoice: states the own-error rule and that the error offset never moves back, but across a whole loop it does not name which of the symbols tried supplied the error kept; Grammar.FailingChildError states that choice for the step where a Sequential's symbol fails. A Terminal's error offset can move back, since `create_error` overwrites it, and the ordering is stated only for a symbol not held inside itself.
- Matching.Matcher.Match: matches a Terminal with the corrected TerminalMatch of the Finding at hadloc/grammar/grammar.py:309, so an accepted token gives a node where the program as written raises TypeError (Grammar.TerminalMatchAsWritten).
- Matching.Matcher.MatchTerminal: matches a Terminal with the corrected TerminalMatch of the Finding at hadloc/grammar/grammar.py:309, so an accepted token gives a node where the program as written raises TypeError (Grammar.TerminalMatchAsWritten).
- Matching.Matcher.MatchSequential: matches a Terminal with the corrected TerminalMatch of the Finding at hadloc/grammar/grammar.py:309, so an accepted token gives a node where the program as written raises TypeError (Grammar.TerminalMatchAsWritten).
- Matching.Matcher.MatchRepeated: matches a Terminal with the corrected TerminalMatch of the Finding at hadloc/grammar/grammar.py:309, so an accepted token gives a node where the program as written raises TypeError (Grammar.TerminalMatchAsWritten).
- Matching.Matcher.MatchOneOf: matches a Terminal with the corrected TerminalMatch of the Finding at hadloc/grammar/grammar.py:309, so an accepted token gives a node where the program as written raises TypeError (Grammar.TerminalMatchAsWritten).
- Matching.Matcher.Parse: matches a Terminal with the corrected TerminalMatch of the Finding at hadloc/grammar/grammar.py:309, so an accepted token gives a node where the program as written raises TypeError (Grammar.TerminalMatchAsWritten).
- AsmTokenizer.OpenedReady: opens the text with the corrected `Code(str)` of the Finding at text_utils/code.py:29 and the corrected start of the Finding at text_utils/code.py:175-178, where the program as written raises TypeError on every str (AsmTokenizer.TokenizedAsWritten).
- AsmTokenizer.Tokenized: opens the text with the corrected `Code(str)` of the Finding at text_utils/code.py:29 and the corrected start of the Finding at text_utils/code.py:175-178, where the program as written raises TypeError on every str (AsmTokenizer.TokenizedAsWritten).
- AsmTokenizer.Tokenizer.constructor: opens the text with the corrected `Code(str)` of the Finding at text_utils/code.py:29 and the corrected start of the Finding at text_utils/code.py:175-178, where the program as written raises TypeError on every str (AsmTokenizer.TokenizedAsWritten).
- AsmTokenizer.Tokenize: opens the text with the corrected `Code(str)` of the Finding at text_utils/code.py:29 and the corrected start of the Finding at text_utils/code.py:175-178, where the program as written raises TypeError on every str (AsmTokenizer.TokenizedAsWritten).
- TextCode.Opened: opens a str with the corrected `Code(str)` of the Finding at text_utils/code.py:29, where the program as written raises TypeError on every str (TextCode.OpenedAsWritten).
- TextCode.Code.constructor: opens a str with the corrected `Code(str)` of the Finding at text_utils/code.py:29, where the program as written raises TypeError on every str (TextCode.OpenedAsWritten).
- TextCode.LinedCode.constructor: opens a str with the corrected `Code(str)` of the Finding at text_utils/code.py:29, where the program as written raises TypeError, and starts on the first line as in the Finding at text_utils/code.py:175-178, where the program keeps the whole text twice.
- CStringCode.Code.StripWhitespace: the new string is the corrected Strip of the Finding at cstring.py:195-206; on the two lines "a  " and "b" the program as written raises IndexError (CStringCode.StripAsWrittenRaises).
- LegacyEmulator.Initial: builds the padded ROM as a new sequence, where emulator.py:30-42 pads the caller's program list in place; that aliasing of the caller's list is not modelled.
- The older grammar package in legacy_grammar.dfy and legacy_matcher.dfy uses the SyntaxTree and TokenLists modules of the newer package. grammar/abstract_syntax_tree.py and grammar/token_list.py are not part of this model, and their nodes and token lists are taken to behave like those of hadloc/grammar.

## Findings

| source | as written | input that shows it | evidently intended | confidence | as-written member | corrected member |
|---|---|---|---|---|---|---|
| assembler/codewriter.py:118 | `args[0] in ['Y' or 'H']` tests against `['Y']` only | `opd H` encodes as 0x0E, the byte of `opd I` | reject both Y and H, as the message says | not executed | CodeWriter.OutputAsWrittenAcceptsH | CodeWriter.OutputEncoding |
| emulator/emulator.py:216 | the positive jump tests `0 < X < 127` | `jgt` with X = 127 is not taken | positive means 1..127, so the three conditions cover every X | not executed | Emulator.CompareAsWrittenSkips127 | Emulator.CompareCovers |
| emulator.py:187-188 | op 14 is `self.X or b`, Python's logical or | X = 1, b = 2 gives 1 | bitwise or, giving 3 | not executed | LegacyEmulator.AluAsWrittenDiffers | LegacyEmulator.AluOr |
| emulator.py:173-175 | the add's carry tests `self.X & 0x100` of the old byte X | 255 + 1 leaves the carry clear | the carry is bit 8 of the sum | not executed | LegacyEmulator.AddCarryAsWrittenNeverSet | LegacyEmulator.AluAdd |
| emulator.py:94-97 | `src == 3 & s` is `src == (3 & s)` | `mov L Y` (0x2C) writes memory; `mov X M` (0x3D) is dropped | destination 3 writes memory when s is set and Y otherwise | not executed | LegacyEmulator.MoveAsWrittenDiffers | LegacyEmulator.MoveStep |
| emulator.py:104-110 | the positive jump tests `0 < X < 127`, and the negative jump reads bit 0 instead of bit 2 | 0x19 at X = 200 jumps; 0x1C never jumps | bit 0 for 1..127, bit 2 for 128..255 | not executed | LegacyEmulator.CompareAsWrittenDiffers | LegacyEmulator.CompareCovers |
| text_utils/positioned_string.py:109 | `int()` reads `self.text[0]` before testing it | `int` of the empty string raises IndexError | ValueError, as for any non-hex text | not executed | PositionedStrings.IntAsWritten | PositionedStrings.Int |
| text_utils/code.py:29 | `create_string(text, keep_ends=True)` passes an argument `create_string` does not take | `Code('a')` raises TypeError, and so `Tokenizer(text)` at assembler/tokenizer.py:65 raises TypeError on every text | the text laid out without its line breaks | not executed | TextCode.OpenedAsWritten | TextCode.OpenedMeaning |
| text_utils/code.py:175-178 | the constructor keeps the whole text as the line and again as the rest, and `advance_line` refuses on a non-empty line | a LinedCode over the PositionedString 'ab' has length 4 | start on the first line, with the rest after it | not executed | TextCode.OpenedLinesAsWrittenRepeats | TextCode.OpenedLinesMeaning |
| cstring.py:817-824 | an integer key deletes a line and a position but not the character | `del s[0]` on 'ab' leaves text 'ab' with one coordinate | remove the same position from all three lists | not executed | CStringText.DeleteIndexUnaligns | CStringText.DeleteMeaning |
| cstring.py:195-206 | the boundary loop's index runs over the string's old length after a cut | the two lines "a  " and "b" raise IndexError | go on at the highest boundary the shortened string still has | not executed | CStringCode.StripAsWrittenRaises | CStringCode.StripMeaning |
| assembler/parser.py:497 | the complemented upper byte is emitted as `[instr, ~value & 0xFF]` with instr `ldu` | `ldu 0x8000` emits `ldu 127`, which the code writer cannot encode | an `ldb` of the complement followed by `not L L` | not executed | AsmParsing.UpperComplementAsWritten | AsmParsing.UpperComplement |
| hadloc/grammar/grammar.py:309 | `ASTNode(self.name, self.auto_name, token)` passes one argument more than the constructor takes | every accepted token raises TypeError | a node with the symbol's name and the token as its value | not executed | Grammar.TerminalMatchAsWritten | Grammar.TerminalMatch |
| utils.py:29 | `file[len(file) - file[::-1].find('/'):]` with `find` giving -1 | `file_name('prog.asm')` is '' | the name without directories, 'prog.asm' | not executed | FileUtils.FileNameAsWritten | FileUtils.FileName |
| text_utils/code_object.py:38-40 | CodeObject hashes by its value but defines no `__eq__`, so it inherits text_utils/positioned_string.py:118-123, which compares the text with a str or an exact PositionedString and rejects every CodeObject | `o == o` is False for every CodeObject `o`; `CodeObject('Hello World', create_string('2')) == 'Hello World'` is False, where tests/text_utils/test_code_object.py:120 expects True | equality by value against a str, a PositionedString or a CodeObject, the equality its hash and its tests call for | not executed | CodeObjects.CodeObjectEquality | CodeObjects.ValueEquality |

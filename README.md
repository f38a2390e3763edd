# CPU scheduler simulator, modelled in Dafny

This project models the core of a small CPU-scheduler simulator written in C.
The repository holds two builds of it, and both are modelled here.

- The `src/` build is a process emulator. Each process is a list of
  instructions parsed from text: DECLARE, ADD, SUBTRACT, PRINT, SLEEP, FOR,
  READ and WRITE. Each process keeps a growable variable table and a loop
  stack. A round-robin scheduler feeds a circular ready queue to a set of
  cores. A free-memory counter and a backing-store file of raw process
  records complete it, and `config.txt` sets the parameters.
- The root build is a thread-per-core simulator with an FCFS scheduler and a
  Round-Robin scheduler. Both use a ten-slot process table and a ring
  buffer, and they share one `load_config`. A string interpreter
  (`barebones`) runs the instruction language over 64 `unsigned short`
  variables.

| module | file | models |
|---|---|---|
| `Wrappers` | wrappers.dfy | `Option`, for outcomes the C code leaves undefined or reports as failure |
| `CText` | ctext.dfy | the C library text routines the sources lean on: `isspace`, the `sscanf` directives `%[^..]`, `%d` and `%s`, `atoi`, `strtoul`, `%d` rendering |
| `ProcessVariables` | process_vars.dfy | `trim`, `get_variable` and `resolve_value` of src/process.c as functions on the variable table |
| `ProcessVm` | process_vm.dfy | `execute_instruction` of src/process.c as a step function on a process's state |
| `ProcessParse` | process_parse.dfy | the instruction parsers of src/process.c, `parse_declare` through `parse_instruction_list` |
| `ProcessObject` | process_object.dfy | the same process as a class whose methods update it in place, each proved equal to the functions above, and the global process table |
| `Scheduler` | scheduler.dfy | the ready queue of src/scheduler.c and one pass of the `scheduler_loop` loop body (`Tick`), as a class |
| `Memory` | memory.dfy | `init_memory` and `update_free_memory` of src/memory.c |
| `BackingStore` | backing_store.dfy | the record file of src/backing_store.c |
| `SrcConfig` | src_config.dfy | `load_config` of src/config.c, with its range checks |
| `RootConfig` | root_config.dfy | `load_config` of the root config.c |
| `RootProcess` | root_process.dfy | the process table and helpers of scheduler_utils.c |
| `Fcfs` | fcfs.dfy | fcfs_scheduler.c |
| `RoundRobin` | round_robin.dfy | rr_scheduler.c |
| `Barebones` | barebones.dfy | the barebones.c interpreter |

Code that changes state in place, such as the process object, the queues,
the scheduler and the table of process slots, is modelled as classes. Their
methods carry `modifies` clauses and are proved against specification
functions. Parsing and arithmetic are modelled as functions and lemmas.

The model follows the C code as written, including where it behaves
unexpectedly:

- `barebones` compares the first 9 characters with "S UBTRACT(", so it
  looks for the 9-character prefix `S UBTRACT` and a SUBTRACT instruction is
  never recognised.
- In `execute_instruction`, PRINT falls through into FOR.
- In `execute_instruction`, FOR skips sub-instruction 1 of its body on the
  first pass (ProcessVm.ForSkipsSecond). The pc moves past the instruction
  after the FOR only when the body is empty (ProcessVm.RunEmptyLoop), when
  the loop stack is full (ProcessVm.ForAtDepthLimit) or when a PRINT falls
  through into it (ProcessVm.ForPrintSkipsFollowing).
- The scheduler branch of the root `load_config` has no braces, so the
  quote strip runs for every line and the numeric keys are handled only in
  the `else`.
- Unsigned arithmetic wraps where the C code computes in an unsigned
  type: the `uint16_t` stores of src/process.c, the `unsigned short` sums of
  `barebones`, `CPU_TICKS` and the SLEEP wake-up tick in `uint64_t`, and the
  free-memory subtraction.
- Storing an `unsigned int` into an `int` field is modelled as a two's
  complement conversion.
- Where C leaves the result undefined, the model returns `None` and does not
  guess the value: a variable left uninitialised by a failed `sscanf`, a
  buffer overrun, an `atoi` or `%d` number that does not fit an `int`, a
  `rand()` divisor of 0, and a READ whose store goes through a freed
  pointer. The exceptions, the `int` overflow of counters and queue
  indices and a failed allocation, are listed under "## Left out".

## Model

| member | source | states |
|---|---|---|
| CText.RunLength | src/process.c:284 | a `%W[^stop]` conversion reads at most W characters, none of them in the stop set, and stops early only at a stop character |
| CText.ScanSet | src/process.c:297 | a `%W[^stop]` conversion fails exactly at the end of input, with width 0 or on a stop character |
| CText.SkipSpaces | src/process.c:375 | a white-space directive skips exactly the run of white space |
| CText.DigitRun | src/process.c:344 | the run of digits at a position, ending at the first non-digit |
| CText.SliceDigits | src/process.c:344 | a run of digits cut out of a string is a digit string |
| CText.ScanDecimal | src/process.c:344 | a successful `%d` consumes at least one character and ends on a non-space |
| CText.ScanInt | src/process.c:344 | a successful `%d` moves past what it read, within the input |
| CText.ScanWord | src/process.c:409 | `%Ws` reads a token that ends where the conversion stops |
| CText.NonSpaceRun | src/process.c:409 | the non-space run `%Ws` reads is at most W characters and holds no white space |
| CText.Find | src/process.c:357 | `strchr` finds the first occurrence, and none exactly when the character is absent |
| CText.ScanIntAt | src/process.c:376 | `%d` on a rendered number at the end of input reads that number |
| CText.ScanIntBefore | src/process.c:284 | `%d` on a rendered number followed by a non-digit reads that number and stops there |
| CText.DigitRunUpTo | src/process.c:344 | the digit run is exactly the stretch of digits before the first non-digit |
| CText.RunLengthUpTo | src/process.c:284 | `%[^stop]` stops exactly at the first stop character |
| CText.NonSpaceRunExact | src/process.c:409 | a run of n characters without white space that ends at the end of the text, a white space or the width is exactly what `%Ws` reads |
| CText.ScanWordAt | src/process.c:409 | `%Ws` over a final word of 1 to W characters without white space reads exactly that word and ends at the end of the text |
| CText.AtoiInt | config.c:19 | `atoi` gives a defined result only when the number fits an `int`, and then it is Atoi |
| CText.StrToUL | src/config.c:46 | `strtoul` never exceeds ULONG_MAX |
| CText.ToInt32 | src/config.c:46-48 | storing an `unsigned int` into an `int` gives the value congruent to it modulo 2^32 in the signed range |
| CText.Decimal | src/process.c:344 | a rendered number is a nonempty digit string |
| CText.DecimalLength | src/process.c:344 | a number below 10^k renders in at most k digits |
| CText.DecimalOfU32 | src/config.c:19 | an `unsigned int` renders in at most 10 digits, so it fits a 63-character token |
| CText.DecimalValue | src/process.c:344 | reading back the digits of a rendered number gives the number |
| CText.DigitRunAll | src/process.c:344 | when every character from a position is a digit, the digit run reaches the end |
| CText.AtoiDecimal | config.c:19-28 | `atoi` and `strtoul` read back a rendered number, `strtoul` saturating at ULONG_MAX |
| ProcessVariables.StripTrailing | src/process.c:270-275 | the end scan of `trim` keeps a prefix and drops exactly the trailing white space |
| ProcessVariables.SrcTrimSpec | src/process.c:261-276 | `trim` of src/process.c keeps a prefix of the buffer: all of it when it is entirely white space, and otherwise the string without its trailing white space |
| ProcessVariables.RemoveSpacesShape | src/process.c:30-37 | the white-space removal keeps only characters of the input, none of them white space |
| ProcessVariables.FindName | src/process.c:40-44 | the `strcmp` scan finds the first variable with the name, and none exactly when no variable carries it |
| ProcessVariables.SetValue | src/process.c:121-142 | an assignment through a variable pointer changes that variable's value only |
| ProcessVariables.LookupSpec | src/process.c:17-69 | `get_variable` returns a known name's first entry with the table unchanged; files an unknown name at the end with value 0, doubling a full table below 1,000,000 and keeping the old entries; and returns NULL with nothing changed only when the table is full at that limit |
| ProcessVariables.ResolveSpec | src/process.c:72-76 | `resolve_value` returns the fallback for an empty operand, a known variable's value, and 0 after creating an unknown one (the fallback when it cannot) |
| ProcessVariables.LookupKeepsNamesDistinct | src/process.c:40-68 | `get_variable` never files the same name twice |
| ProcessVariables.NameKeyShape | src/process.c:24-37 | the filed name holds no white space and fits the 50-byte buffer with its terminator |
| ProcessVariables.RemoveSpacesAfterTrim | src/process.c:28-37 | removing all white space after `trim` is the same as removing it from the untrimmed name |
| ProcessVariables.RemoveSpacesTrailing | src/process.c:28-37 | trailing white space contributes nothing to the filed name |
| ProcessVariables.SpacesDoNotMatter | src/process.c:24-44 | names of at most 49 characters that differ only in white space reach the same variable |
| ProcessVm.Store16 | src/process.c:121-142 | `CLAMP_UINT16` then the store into `uint16_t`: values above 65535 become 65535, and a negative difference wraps modulo 2^16 |
| ProcessVm.Advance | src/process.c:237-242 | after an instruction, the innermost open loop's cursor moves on by one, or the program counter when no loop is open, and nothing else changes |
| ProcessVm.AdvanceKeepsWellFormed | src/process.c:237-242 | moving a cursor forward keeps every open loop's body and cursor well formed |
| ProcessVm.Select | src/process.c:99-115 | inside a loop the step fetches the sub-instruction under the cursor, restarts a finished pass with repeats left, or pops the loop without changing the table |
| ProcessVm.Exec | src/process.c:78-245 | `execute_instruction` leaves a halted process (negative or past-the-end program counter, NULL instructions or variables) exactly as it is, and keeps the process well formed |
| ProcessVm.Run | src/process.c:117-242 | running one fetched instruction keeps the process well formed and never loses the variable table |
| ProcessVm.Open | src/process.c:147-181 | the FOR case, reached by PRINT too, keeps the process well formed |
| ProcessVm.Simple | src/process.c:119-209 | DECLARE, ADD, SUBTRACT, SLEEP, READ and WRITE leave the program counter and the loop stack alone |
| ProcessVm.Push | src/process.c:164-169 | FOR opens one more loop context and changes neither the table nor the program counter |
| ProcessVm.ExecN | src/process.c:78-245 | consecutive steps keep the process well formed |
| ProcessVm.SleepAdvances | src/process.c:183-242 | a top-level SLEEP marks the process SLEEPING until CPU_TICKS + value and still advances the program counter |
| ProcessVm.SleepInLoopMovesCursor | src/process.c:183-239 | inside a loop, SLEEP moves the loop cursor instead of the program counter |
| ProcessVm.PrintAdvancesTwice | src/process.c:147-241 | a top-level PRINT falls into FOR with an empty list and advances the program counter by two, changing nothing else |
| ProcessVm.ForAtDepthLimit | src/process.c:159-241 | FOR at the depth limit advances the program counter, then advances again |
| ProcessVm.LoopExit | src/process.c:109-113 | an exhausted loop with no repeats left is popped and the program counter moves on, with no instruction run |
| ProcessVm.ExecTopLevel | src/process.c:99-117 | a step with no open loop runs the instruction at the program counter |
| ProcessVm.ExecInLoop | src/process.c:101-104 | a step inside a loop whose cursor is within the body runs the sub-instruction under the cursor |
| ProcessVm.ExecRestart | src/process.c:105-108 | an exhausted loop with repeats left loses one repeat, restarts at cursor 0 and runs its first sub-instruction |
| ProcessVm.RunTableOnly | src/process.c:119-242 | an instruction that touches only variables applies its effect and then advances |
| ProcessVm.RunOpensLoop | src/process.c:164-239 | below the depth limit, a FOR with a body pushes a context, runs one nested step, then advances |
| ProcessVm.PushedFirstStep | src/process.c:172-174 | the nested step of a fresh loop runs sub-instruction 0 and moves the new cursor to 1 |
| ProcessVm.ForSkipsSecond | src/process.c:172-239 | on a FOR's first pass, sub-instruction 0 runs and the cursor ends at 2, so sub-instruction 1 is skipped |
| ProcessVm.RunEmptyLoop | src/process.c:175-241 | below the depth limit, PRINT or a FOR with no body pushes and pops at once and the program counter advances twice |
| ProcessVm.PrintRestart | src/process.c:105-179 | restarting a loop whose body is one PRINT runs it again, moving the program counter while the loop stays open |
| ProcessVm.ExecNFirst | src/process.c:78-245 | k + 1 steps are one step followed by k |
| ProcessVm.PrintLoopExit | src/process.c:109-113 | with no repeats left, one step pops such a loop and moves the program counter |
| ProcessVm.PrintLoopStep | src/process.c:105-113 | one restart of such a loop uses up one repeat and one place of the program counter |
| ProcessVm.PrintLoopDrains | src/process.c:101-113 | rem + 1 steps drain such a loop with rem repeats left and move the program counter rem + 1 places |
| ProcessVm.AdvanceSingle | src/process.c:238-239 | with one loop open, the advance moves its cursor |
| ProcessVm.PushedPrintStep | src/process.c:172-179 | the nested step of a fresh loop whose first sub-instruction is PRINT moves the program counter and the new cursor |
| ProcessVm.ForPrintFirstPass | src/process.c:164-239 | the first step of a FOR whose body is one PRINT moves the program counter and leaves the cursor at 2 |
| ProcessVm.ForPrintSkipsFollowing | src/process.c:101-242 | a top-level FOR whose body is one PRINT finishes after max(1, repeat) + 1 steps with the program counter max(1, repeat) + 1 further on, so the instructions after it are never run |
| ProcessVm.AssignThenResolve | src/process.c:17-76 | an assignment through the variable `get_variable` finds or files stores the value there: resolving the name afterwards reads it back, and every other variable keeps its name and value |
| ProcessVm.DeclareThenResolve | src/process.c:119-123 | DeclareEffect: after DECLARE(var, k), reading var gives k as `CLAMP_UINT16` stores it |
| ProcessVm.ArithThenResolve | src/process.c:125-145 | ArithEffect: ADD or SUBTRACT over two known variables leaves their sum or difference, clamped and wrapped as `uint16_t` stores it, in the destination |
| ProcessVm.ReadEffectSpec | src/process.c:191-200 | ReadEffect: READ is undefined exactly when the destination is found or filed and the address names an unknown variable while the table is full and may still grow (the store then goes through a freed pointer); otherwise the destination holds the word at the resolved address, and a NULL destination changes nothing |
| ProcessVm.ReadIntoMovedTable | src/process.c:191-200 | a full one-variable table and a new address name make READ undefined |
| ProcessVm.WriteKeepsValues | src/process.c:203-209 | WriteEffect: WRITE changes no variable: at most its address operand is filed at the end with value 0, and a known or empty operand changes nothing |
| ProcessVm.TableEffect | src/process.c:119-209 | of DECLARE, ADD, SUBTRACT, READ and WRITE only READ can be undefined |
| ProcessVm.WakeTick | src/process.c:186 | `CPU_TICKS + value` in `uint64_t`: the plain sum when it is in range, and the sum plus 2^64 when it is negative |
| ProcessVm.SelectKeepsReadFree | src/process.c:99-115 | a process with no READ fetches no READ and stays without one |
| ProcessVm.PushKeepsReadFree | src/process.c:164-169 | opening a loop whose body has no READ keeps a READ-free process READ-free |
| ProcessParse.TrimC | src/process.c:261-276 | `trim` of a NUL-free buffer yields a prefix of it, never longer |
| ProcessParse.ScanCInt | src/process.c:307-318 | `%d` into an `int` either finds no number (exactly when the text has no integer prefix), or a 32-bit value ending inside the text, or an out-of-range number |
| ProcessParse.Field | src/process.c:284 | `%49[^,]` reads a non-empty run of at most 49 characters without ','; it stops at a ',' unless the width or the text ends first; it fails exactly at the end of the text or on a ',' |
| ProcessParse.RunLengthStops | src/process.c:297 | a `%49[^,]` run shorter than 49 that ends inside the text ends at a ',' |
| ProcessParse.NameAndInt | src/process.c:284-285 | `%49[^,],%d` then `trim` gives a name of at most 49 characters and a 32-bit value |
| ProcessParse.SkipSpacesCommas | src/process.c:372-375 | the scan after ']' stops at the first character that is neither white space nor ',', having skipped only such characters |
| ProcessParse.SkipSeparators | src/process.c:387 | `strtok` skips leading ';'s and stops at a character that is not ';' |
| ProcessParse.TokenEnd | src/process.c:387 | a token ends at the first ';' or at the end of the text |
| ProcessParse.TokenEndExact | src/process.c:387 | a run of n non-';' characters followed by ';' or the end is a token of length n |
| ProcessParse.NextToken | src/process.c:435 | one `strtok` call returns a non-empty token ending at a ';' or the end, and returns nothing exactly when only ';'s remain |
| ProcessParse.ParseList | src/process.c:429-464 | `parse_instruction_list` builds no more than max_count instructions and no more than the tokens of its first 255 characters |
| ProcessParse.ParseFrom | src/process.c:435-461 | the `strtok` loop builds at most `room` instructions and at most one per remaining token |
| CText.SkipSpacesTo | src/process.c:375 | skipping white space from i stops at the first character that is not white space |
| CText.ScanIntAfterSpaces | barebones.c:113 | `%d` after white space reads back the decimal rendering of a number when no digit follows it |
| CText.RunLengthExact | src/process.c:297 | a scanset run is exactly n when n characters outside the stop set are followed by the end, a stop character or the width |
| ProcessParse.TokensSkipSeparator | src/process.c:391 | a ';' between tokens contributes no token |
| ProcessParse.TokenAt | src/process.c:387-391 | a piece without ';' followed by ';' or the end is the next token |
| ProcessParse.JoinParts | src/process.c:435-460 | the ';'-join of pieces is the first piece, a ';', then the join of the rest |
| ProcessParse.TokensFromStep | src/process.c:387-391 | the token found at i heads the token list from i |
| ProcessParse.JoinFromSplit | src/process.c:435-460 | text holding a join starts with the first piece and a ';', and holds the join of the rest after it |
| ProcessParse.TokensFromJoinStep | src/process.c:435-460 | over a joined text the first token is the first piece, and the rest of the tokens come from the rest of the join |
| ProcessParse.TokensAtEnd | src/process.c:460 | `strtok` at the end of the text returns no token |
| ProcessParse.TokensOfLastPiece | src/process.c:435-460 | a text ending with one ';'-free piece yields exactly that token |
| ProcessParse.ConsMatches | src/process.c:435-460 | prefixing the piece at m to a list matching the pieces after m matches the pieces from m |
| ProcessParse.TokensFromJoin | src/process.c:435-460 | `strtok` on the ';'-join of non-empty ';'-free pieces returns those pieces, in order |
| ProcessParse.TokensOfJoin | src/process.c:387-392 | splitting with `strtok(_, ";")` inverts joining with ';' for non-empty pieces without ';' |
| ProcessParse.LeadingSpaceDropped | src/process.c:439 | a token starting with ' ' or '(' fails `%19[^ (](` and is dropped |
| ProcessParse.NameAndIntAt | src/process.c:284-285 | `%49[^,],%d` over "name,constant" reads back the trimmed name and the constant |
| ProcessParse.ParseDeclareOfText | src/process.c:279-289 | `parse_declare` of "name,constant" gives DECLARE of the trimmed name with that constant |
| ProcessParse.ParseDeclareLongName | src/process.c:284 | with no ',' in the first 50 characters the value stays unread, so the outcome is undefined |
| ProcessParse.NumericOperandsStoreZero | src/process.c:292-321 | two numeric operands leave empty operand strings and the third number in `value`; executing that ADD or SUBTRACT stores 0 in the target |
| ProcessParse.VariableOperandKept | src/process.c:307-319 | operands `%d` cannot read are kept by name with `value` 0 |
| ProcessParse.ForWithoutList | src/process.c:357-363 | without a '[' before a ']' `parse_for` returns a FOR with repeat count 0 and no body |
| ProcessParse.ForRepeatCount | src/process.c:352-380 | when a `[` comes before the first `]`, every FOR `parse_for` builds has no name and value 0, and its repeat count is the `%d` after the ']' and any white space and commas, and 1 when there is none |
| ProcessParse.SplitCommand | src/process.c:439 | `%19[^ (](%199[^)])` succeeds only with a name of 1 to 19 characters without ' ' or '(', then '(', then 1 to 199 characters without ')'; a token starting with ' ' or '(' fails |
| ProcessParse.SplitCommandOfText | src/process.c:439-456 | the token "cmd(args)" splits back into cmd and args |
| ProcessParse.FieldAt | src/process.c:297 | `%49[^,]` over a piece of 1 to 49 characters without ',' that ends at ',' or the end reads exactly that piece |
| ProcessParse.ParseWriteOfText | src/process.c:416-426 | `parse_write` of "address,value" gives WRITE of the trimmed address with that value |
| ProcessParse.ParseSleepOfText | src/process.c:340-347 | `parse_sleep` of a rendered 32-bit constant gives SLEEP of that many ticks |
| ProcessParse.ParsePrintAfterPlus | src/process.c:324-337 | `parse_print` keeps the trimmed text after the first '+', and is undefined when that text overruns the 50-byte operand |
| ProcessParse.TwoFieldsAt | src/process.c:297 | `%49[^,],%49[^,]` over "b,c" reads back b and c |
| ProcessParse.ThreeFieldsOfText | src/process.c:297 | `%49[^,],%49[^,],%49[^,]` over "a,b,c" reads back the three operands when each is 1 to 49 characters without ',' |
| ProcessParse.ParseAddSubOfText | src/process.c:292-303 | `parse_add_sub` of "a,b,c" trims the three operands, replaces an empty third by "0", and applies the operand rule |
| ProcessParse.ParseReadOfText | src/process.c:405-413 | ParseRead: `parse_read` of "var,addr" gives READ of the trimmed var and the address word |
| ProcessParse.TrimCOfWord | src/process.c:261-276 | `trim` leaves a word without white space as it is |
| ProcessParse.UnknownCommandDropped | src/process.c:439-458 | ParseCommand: a well-formed token "cmd(args)" is dropped exactly when cmd is none of the eight commands |
| ProcessParse.ListText | src/process.c:365-370 | the text between the brackets, cut to the 255 characters `instr_list` keeps: all of it when it fits |
| ProcessParse.ForOf | src/process.c:352-403 | a FOR is defined exactly when its repeat count and its body are |
| ProcessParse.OutcomesOf | src/process.c:435-460 | one outcome per token, in order, each what ParseCommand gives for it |
| ProcessParse.CollectSpec | src/process.c:435-461 | the loop keeps the first `room` instructions built, in order, when no token is undefined; with room for every token one undefined token makes the list undefined |
| ProcessParse.ParseFromTokens | src/process.c:435-461 | the `strtok` loop over the buffer is the token-by-token parse of the buffer's tokens |
| ProcessParse.ParseListOfJoin | src/process.c:429-464 | `parse_instruction_list` over non-empty pieces without ';' joined by ';' gives the first max_count instructions they build, in order, and is undefined when one piece is (with room for all) |
| ProcessParse.ForBodyTokens | src/process.c:382-400 | a FOR body holds one instruction per token of its list that builds one, in order, and one undefined token makes it undefined |
| ProcessParse.ForBodyOfList | src/process.c:352-403 | ParseFor: with a '[' before a ']', `parse_for` is defined exactly when the repeat count and every token are, and then gives the FOR with that count and the instructions the list builds |
| ProcessObject.NulIndex | src/process.c:270 | the terminator of a buffer is its first NUL |
| ProcessObject.CStr | src/process.c:261-276 | the C string a buffer holds is everything before its first NUL |
| ProcessObject.SkipSpacesAt | src/process.c:264-265 | the start scan of `trim` stops at the first character that is not white space |
| ProcessObject.StripTrailingAt | src/process.c:272-275 | the end scan of `trim` keeps exactly the prefix ending at the last character that is not white space |
| ProcessObject.Trim | src/process.c:261-276 | `trim` on the buffer leaves the C string SrcTrim describes |
| ProcessObject.TerminateAt | src/process.c:275 | a NUL written just after position e cuts the string to its first e + 1 characters |
| ProcessObject.CopyTruncated | src/process.c:24-26 | the `strncpy` into the 50-byte name buffer keeps at most 49 characters of the name |
| ProcessObject.RemoveSpacesStep | src/process.c:31-35 | one more character is kept by the compaction loop unless it is white space |
| ProcessObject.RemoveSpacesInPlace | src/process.c:30-37 | the compaction loop of `get_variable` drops every white-space character of the string in place |
| ProcessObject.NameKeyOf | src/process.c:24-37 | the copy, `trim` and compaction of `get_variable` give the name under which the variable is filed |
| ProcessObject.Process.TableOf | src/process.c:40-68 | the live variables and the capacity form a valid table |
| ProcessObject.Process.constructor | src/process.c:78-99 | a process at program counter 0 with its program, an empty table of capacity 8 and no open loop |
| ProcessObject.Process.GetVariable | src/process.c:17-69 | `get_variable` on the object changes the variable table exactly as Lookup says and returns the same slot, or -1 with nothing changed when the array is NULL |
| ProcessObject.Process.FindIndex | src/process.c:40-44 | the `strcmp` scan returns the first matching slot, or -1 exactly when none matches |
| ProcessObject.Process.Grow | src/process.c:47-65 | the growth branch copies the entries into a fresh array of twice the capacity and keeps the live entries |
| ProcessObject.Process.Append | src/process.c:66-68 | a new variable goes in at `num_var` with value 0 |
| ProcessObject.Process.ResolveValue | src/process.c:72-76 | `resolve_value` on the object gives what Resolve gives and changes the table as it says |
| ProcessObject.Process.ApplyTableEffect | src/process.c:119-209 | the variable-only cases of the switch change the table exactly as TableEffect says |
| ProcessObject.Process.Store | src/process.c:121-142 | a store through a variable pointer changes that variable's value only |
| ProcessObject.Process.AssignVariable | src/process.c:120-121 | `get_variable` and, when it is not NULL, a store of the value |
| ProcessObject.Process.DeclareStep | src/process.c:119-123 | DECLARE changes the table exactly as DeclareEffect says |
| ProcessObject.Process.ArithStep | src/process.c:125-145 | ADD and SUBTRACT resolve both operands before the destination and change the table as ArithEffect says |
| ProcessObject.Process.ResolveOperands | src/process.c:127-139 | the two operand resolutions happen in order, each on the table the one before left |
| ProcessObject.Process.ReadStep | src/process.c:191-200 | READ looks up the destination, then resolves the address, then stores the word read there |
| ProcessObject.Process.StoreRead | src/process.c:195-197 | the address resolution and the store: defined exactly when the resolution left the array where it was, and then the destination holds the word read |
| ProcessObject.Process.AdvanceCursor | src/process.c:237-242 | the common tail moves the innermost loop's cursor, or else the program counter, as Advance says |
| ProcessObject.Process.Execute | src/process.c:78-245 | `execute_instruction` on the object changes the process exactly as Exec says |
| ProcessObject.Process.SelectInstruction | src/process.c:99-115 | the loop-context prologue fetches, restarts or pops exactly as Select says |
| ProcessObject.Process.RunInstruction | src/process.c:117-242 | the switch and the common tail change the process exactly as Run says |
| ProcessObject.Process.OpenLoop | src/process.c:147-181 | the FOR case, reached by PRINT too, changes the process exactly as Open says |
| ProcessObject.ProcessTable.constructor | src/process.c:247-249 | the process table starts NULL with size 0 |
| ProcessObject.ProcessTable.AddProcess | src/process.c:251-258 | `add_process` appends p after every process already added, growing a full table from 0 to 8 or by doubling |
| Scheduler.Wrap | src/scheduler.c:44 | an index below twice the capacity taken modulo the capacity lands in range |
| Scheduler.ModIsWrap | src/scheduler.c:32-53 | the C `%` on a slot index below twice the capacity is one subtraction at most |
| Scheduler.Window | src/scheduler.c:31-33 | the live entries of the circular buffer, read from head on, number exactly `size` |
| Scheduler.WindowAppend | src/scheduler.c:43-45 | writing the slot after the live entries adds a newest entry and keeps the others in order |
| Scheduler.WindowAdvance | src/scheduler.c:52-54 | moving head on by one slot drops exactly the oldest entry |
| Scheduler.WindowFromZero | src/scheduler.c:31-40 | after the copy into slots 0..size-1 the live entries are the first `size` slots |
| Scheduler.ReadyQueue.Contents | src/scheduler.c:24-56 | the queued processes in leaving order, as many as `size` |
| Scheduler.ReadyQueue.constructor | src/scheduler.c:15-21 | `init_ready_queue`: capacity 16, size 0, head and tail 0, nothing queued |
| Scheduler.ReadyQueue.Grow | src/scheduler.c:26-41 | the resize in `enqueue_ready` doubles the capacity, copies the entries oldest first into slots 0..size-1, sets head 0 and tail size, and keeps the queue's contents |
| Scheduler.ReadyQueue.Put | src/scheduler.c:43-45 | storing at tail appends p to the contents, moves tail on modulo the capacity and grows size by one |
| Scheduler.ReadyQueue.Enqueue | src/scheduler.c:24-46 | `enqueue_ready` puts p behind every queued entry, growing a full queue first, with the exact new slots, head and tail in both cases |
| Scheduler.ReadyQueue.Dequeue | src/scheduler.c:49-56 | `dequeue_ready` gives NULL and leaves an empty queue unchanged; otherwise it gives the oldest entry and the contents lose exactly that entry |
| Scheduler.Woken | src/scheduler.c:66-68 | a process's state changes in a tick only from SLEEPING to READY, and only once its wake-up tick has come |
| Scheduler.NegativeSleepOversleeps | src/scheduler.c:66-68 | SLEEP(n) with n below minus the tick wraps the wake-up tick to just under 2^64, and the process stays asleep on every tick before that |
| Scheduler.Scheduler.constructor | src/scheduler.c:7-12 | the globals start at zero ticks and no cores |
| Scheduler.Scheduler.Tick | src/scheduler.c:60-69 | one pass of `scheduler_loop` advances CPU_TICKS by one modulo 2^64 and wakes exactly the sleepers whose tick has come |
| Scheduler.Scheduler.Wake | src/scheduler.c:65-68 | the wake-up test makes a SLEEPING process READY once its wake-up tick has come and leaves every other state as it was, as Woken says |
| Scheduler.Scheduler.InitCpuCores | src/scheduler.c:98-102 | `init_cpu_cores(n)` records n cores and gives n empty core slots |
| Memory.Initial | src/memory.c:6-13 | `init_memory` leaves all of the total memory free, no process counted, and the frame and process sizes as given |
| Memory.Sub64 | src/memory.c:17 | `uint64_t` subtraction is the plain difference when no borrow occurs and the difference plus 2^64 otherwise |
| Memory.UpdateFreeMemory | src/memory.c:15-20 | `update_free_memory` takes one process's memory from the free memory (wrapping below zero modulo 2^64), counts one more process and changes nothing else |
| Memory.UpdateKeepsAccount | src/memory.c:15-20 | when the subtraction does not wrap, free memory plus the memory held by the counted processes still equals the total |
| Memory.UpdatesFromInitial | src/memory.c:6-20 | from `init_memory`, k updates that fit leave total - k * mem_per_proc free and k processes counted, with the account balanced |
| Memory.MemoryState.constructor | src/memory.c:4 | the zero-initialised global `m` |
| Memory.MemoryState.InitMemory | src/memory.c:6-13 | `init_memory` stores the initial counters in the global `m` and returns them, and they balance |
| BackingStore.Without | src/backing_store.c:48-53 | the rewrite loop of `remove_process_from_backing_store` keeps at most as many records as were stored |
| BackingStore.WithoutMembers | src/backing_store.c:48-53 | a record survives removal exactly when it was stored and carries a different pid |
| BackingStore.WithoutAppend | src/backing_store.c:48-53 | the rewrite filters record by record, so a concatenation is filtered piecewise |
| BackingStore.WithoutIdempotent | src/backing_store.c:34-56 | removing the same pid a second time removes nothing more |
| BackingStore.Store.constructor | src/backing_store.c:7 | no backing-store file exists yet |
| BackingStore.Store.Write | src/backing_store.c:9-14 | `write_process_to_backing_store` appends exactly one record at the end of the file when it can be opened and changes nothing otherwise |
| BackingStore.Store.ReadAll | src/backing_store.c:16-32 | `read_all_processes_from_backing_store` gives every stored record in file order, and none when the file cannot be opened |
| BackingStore.Store.Remove | src/backing_store.c:34-56 | `remove_process_from_backing_store` rewrites the file with the records of other pids in stored order, and leaves it alone when reading gives no record or it cannot be reopened for writing |
| SrcConfig.StripQuotes | src/config.c:23-27 | a value loses its surrounding double quotes only when it is at least two characters long and starts and ends with one, and never grows |
| SrcConfig.Unsigned | src/config.c:46 | `(unsigned int)strtoul(...)` stored in an `int` field always lies in the 32-bit signed range |
| SrcConfig.Config.constructor | include/config.h:4-17 | a Config holding the given settings |
| SrcConfig.Config.ApplyPair | src/config.c:21-111 | the body of the read loop changes the Config exactly as the line's rule says, and reports when C leaves the outcome undefined |
| SrcConfig.Config.StoreValue | src/config.c:30-43 | the num-cpu and scheduler branches store the value only when it is in 1..128 or is "fcfs" or "rr" |
| SrcConfig.Config.StoreCount | src/config.c:45-75 | quantum-cycles, batch-process-freq, min-ins and max-ins are stored only when `strtoul` reads at least 1 |
| SrcConfig.Config.StoreSize | src/config.c:78-106 | the delay and memory keys are stored unchecked, and any other key changes nothing |
| SrcConfig.Config.LoadConfig | src/config.c:12-116 | `load_config` returns 0 and changes nothing when config.txt cannot be opened, and otherwise returns 1 having applied every line in file order |
| SrcConfig.LoadStaysUndefined | src/config.c:21-112 | once one line's outcome is undefined, so is the whole load |
| SrcConfig.StripQuotesOfQuoted | src/config.c:24-27 | a quoted value is read without its quotes |
| SrcConfig.CountKeepsCpuAndScheduler | src/config.c:45-111 | the keys after num-cpu and scheduler never touch those two fields |
| SrcConfig.ApplyKeepsNumCpuInRange | src/config.c:30-35 | a line never takes num-cpu out of 1..128 |
| SrcConfig.LoadKeepsNumCpuInRange | src/config.c:21-112 | a whole file never takes num-cpu out of 1..128 |
| SrcConfig.ApplyKeepsSchedulerKnown | src/config.c:38-42 | a line never takes the scheduler away from "fcfs" or "rr" |
| SrcConfig.RejectedValueIgnored | src/config.c:30-75 | ApplyValue: a value its key's check rejects leaves the settings unchanged (or the outcome undefined) |
| SrcConfig.AcceptedValueStored | src/config.c:30-75 | ApplyValue: an accepted num-cpu, scheduler or counted value is stored in that key's field, as `atoi` or `strtoul` reads it |
| SrcConfig.LoadKeepsSchedulerKnown | src/config.c:21-112 | a whole file never takes the scheduler away from "fcfs" or "rr" |
| SrcConfig.UnknownKeyIgnored | src/config.c:109-111 | a key no branch names leaves the settings unchanged |
| SrcConfig.SizeLaterWins | src/config.c:78-106 | for an unchecked key, a later value overrides an earlier one |
| SrcConfig.CountLaterWins | src/config.c:45-106 | ApplyCount: for a counted key, a later value that passes the `>= 1` check overrides an earlier one |
| SrcConfig.ValueLaterWins | src/config.c:30-106 | ApplyValue: for every key, a later accepted value overrides an earlier one, whatever the earlier one was |
| SrcConfig.LaterLineWins | src/config.c:21-112 | ApplyLine: of two lines with the same key, the later one wins whenever its value is accepted |
| SrcConfig.LargeQuantumStoredNegative | src/config.c:45-48 | a quantum-cycles value in 2^31..2^32-1 passes the `>= 1` check and is stored as a negative `int` |
| RootConfig.SystemConfig.constructor | config.c:6 | the zero-initialised global `system_config` |
| RootConfig.SystemConfig.ApplyPair | config.c:17-37 | one pass of the read loop changes `system_config` exactly as the line's rule says, and reports when C leaves the outcome undefined |
| RootConfig.SystemConfig.StoreAfterQuote | config.c:22-36 | the quote test on the stored scheduler runs for every key, and the later key assignments happen only in its `else` |
| RootConfig.SystemConfig.LoadConfig | config.c:8-40 | `load_config` changes nothing when config.txt cannot be opened and otherwise applies every line in file order |
| RootConfig.LoadStaysUndefined | config.c:17-37 | once one line's outcome is undefined, so is the whole load |
| RootConfig.NumCpuUnchecked | config.c:18-19 | num-cpu stores whatever `atoi` reads, with no range check |
| RootConfig.SchedulerUnchecked | config.c:20-26 | any short scheduler name is stored unvalidated; a quoted one is unquoted in the same pass, and a lone `"` is undefined |
| RootConfig.LongSchedulerUndefined | config.c:21-22 | a scheduler value of eight or more characters leaves the field unterminated, so the `strlen` that follows is undefined |
| RootConfig.QuotedSchedulerSkipsAssignment | config.c:22-36 | while the stored scheduler is quoted, any line other than num-cpu or scheduler only strips one pair of quotes and its own assignment is lost |
| RootConfig.NumericKeysStoreAtoi | config.c:27-36 | quantum-cycles, batch-process-freq, min-ins, max-ins and delay-per-exec each store `atoi` of the value into their own field only |
| RootConfig.UnknownKeyIgnored | config.c:17-37 | a key no branch compares against, "delays-per-exec" among them, changes nothing |
| RootConfig.QuotedSchedulerThenQuantum | config.c:17-37 | a quoted "rr" is unquoted on its own line, so a following quantum-cycles line is applied |
| RootProcess.ProcessPool.CreateProcess | scheduler_utils.c:5-13 | `create_process` sets burst time and print total to the burst, clears progress, flag and times, takes the process off every core, and leaves the name, the file name and every other struct alone |
| RootProcess.RandomBurstInRange | scheduler_utils.c:15-17 | with min <= max, every value of `rand()` gives a burst in [min, max] |
| RootProcess.RandomBurstCovers | scheduler_utils.c:15-17 | with min <= max, every value in [min, max] is the burst for some value of `rand()` |
| RootProcess.RandomBurstReversed | scheduler_utils.c:15-17 | with max < min - 1 the divisor is negative and the burst can exceed max |
| RootProcess.Created | fcfs_scheduler.c:43-45 | the struct after a creation step holds the burst as burst time and print total, no progress, not finished, on no core, zero times, the name "p" followed by the counter, and its file name |
| RootProcess.FreeSlot | scheduler_utils.c:19-25 | `find_free_process_slot` on the structs gives a slot of the table or none (FreeSlotLowest says which) |
| RootProcess.FreeSlotFromLowest | scheduler_utils.c:20-24 | the scan from slot k stops at the first slot whose burst time is 0, passing only busy slots; none means every slot from k is busy |
| RootProcess.FreeSlotLowest | scheduler_utils.c:19-25 | `find_free_process_slot` gives a slot with burst time 0 below which every slot is busy, and none exactly when every slot is busy |
| RootProcess.BatchFrom | fcfs_scheduler.c:38-46 | a creation batch on the structs keeps their number and resets at most one slot of the table per round left |
| RootProcess.BatchStep | fcfs_scheduler.c:38-46 | a round with a free slot and a defined draw resets the lowest free slot with that burst and the next counter, and the later rounds follow on that |
| RootProcess.BatchTouchesOnlyFree | fcfs_scheduler.c:38-46 | a batch resets only slots that were free before it, and leaves every other struct as it was |
| RootProcess.BatchInOrder | fcfs_scheduler.c:38-46 | with bursts drawn from [min, max] for 1 <= min, every draw is defined, each round takes a higher slot than the one before, and round j's slot ends up with draw i + j's burst and the name "p" with counter + j + 1 |
| RootProcess.Reset | fcfs_scheduler.c:43-46 | one creation step on slot idx keeps the number of structs and task pointers |
| RootProcess.RunFrom | fcfs_scheduler.c:38-52 | the batch loop keeps the number of structs and task pointers and only ever adds created pointers |
| RootProcess.RunRound | fcfs_scheduler.c:39-51 | one round and the ones after it keep the number of structs and task pointers and only ever add created pointers |
| RootProcess.RunFromCounts | fcfs_scheduler.c:38-52 | the batch loop creates at most one process per round left, steps the counter once per process, and ends early with a defined outcome only when every slot is busy |
| RootProcess.RunFromAgrees | fcfs_scheduler.c:38-52 | the loop on the whole pool does what the batch on the structs says: the same structs and outcome, one counter step and one pointer per reset slot, in order, and `task_list` pointing at exactly the reset slots besides what it held |
| RootProcess.RunStep | fcfs_scheduler.c:39-46 | a round with a free slot and a defined draw resets that slot, hands its pointer on and continues with the next round |
| RootProcess.RunKeepsBusy | fcfs_scheduler.c:38-52 | the batch loop leaves a struct in use (burst time not 0) as it was |
| RootProcess.RunStop | fcfs_scheduler.c:38-41 | the batch loop ends with the pool as it is after round n, at a -1 from `find_free_process_slot`, or with an undefined draw |
| RootProcess.Slot | fcfs_scheduler.c:20-31 | `x % MAX_PROCESSES` for an index below twice the bound lands in range |
| RootProcess.Ring | fcfs_scheduler.c:11-12 | the queued pointers of the ten-slot ring, read from `front` on, as many as asked for |
| RootProcess.RingAppend | fcfs_scheduler.c:24-25 | writing the slot after the queued entries adds a newest entry and keeps the others |
| RootProcess.RingAdvance | fcfs_scheduler.c:30-31 | moving `front` on by one slot drops exactly the oldest entry |
| RootProcess.ProcessPool.constructor | scheduler_utils.c:27 | ten distinct zeroed process structs, an empty task list and archive, and the process counter at 0 |
| RootProcess.ProcessPool.State | scheduler.h:33-34 | the pool the batch loops see: the ten structs of `process_list`, the ten pointers of `task_list` and the process counter |
| RootProcess.ProcessPool.FindFreeProcessSlot | scheduler_utils.c:19-25 | `find_free_process_slot` gives the smallest slot whose burst time is 0, and -1 exactly when there is none |
| RootProcess.ProcessPool.Spawn | fcfs_scheduler.c:39-46 | the creation step counts one more process, resets slot idx with the burst, names it "p" followed by the new count, and points `task_list[idx]` at it |
| RootProcess.ProcessPool.Archive | fcfs_scheduler.c:89-91 | a finished process is copied into the next archive slot while the archive has room, and nothing happens otherwise |
| RootProcess.ProcessPool.RunToCompletion | fcfs_scheduler.c:80-88 | the FCFS run puts the process on the core, performs all `burst_time` prints (none when the burst is below 1), stamps the start and end times and marks it finished |
| Fcfs.Ran | fcfs_scheduler.c:80-88 | a process run to completion keeps its burst, print total and name, is finished on the given core, and has made every print of a positive burst |
| Fcfs.FcfsScheduler.Count | fcfs_scheduler.c:11-33 | the ring holds (rear - front) mod MAX_PROCESSES entries, never more than nine |
| Fcfs.FcfsScheduler.Contents | fcfs_scheduler.c:11-33 | the queued processes in leaving order, as many as Count |
| Fcfs.FcfsScheduler.constructor | fcfs_scheduler.c:11-17 | the zero-initialised globals: an empty queue and no stop |
| Fcfs.FcfsScheduler.Enqueue | fcfs_scheduler.c:19-26 | `enqueue` refuses and changes nothing when the ring holds nine entries; otherwise p goes in at rear and leaves after every entry already queued |
| Fcfs.FcfsScheduler.Dequeue | fcfs_scheduler.c:28-33 | `dequeue` gives NULL exactly when the queue is empty; otherwise it gives the oldest entry, which the contents lose |
| Fcfs.FcfsScheduler.Start | fcfs_scheduler.c:116-119 | `start_scheduler` empties the queue and clears the stop flag |
| Fcfs.FcfsScheduler.Stop | fcfs_scheduler.c:141-146 | `stop_scheduler_now` sets the stop flag and empties the queue |
| Fcfs.FcfsScheduler.Admit | fcfs_scheduler.c:39-51 | one creation resets a slot as a fresh unfinished process with the drawn burst, and queues it exactly when the ring had room |
| Fcfs.FcfsScheduler.Round | fcfs_scheduler.c:39-51 | one round: a -1 from `find_free_process_slot` ends the batch with every slot busy; otherwise the drawn burst resets the slot and it is offered to `enqueue`, exactly as the next round of RunFrom says, and the queue gains it while the ring has room |
| Fcfs.FcfsScheduler.CreateBatch | fcfs_scheduler.c:38-52 | the batch loop leaves the structs, `task_list` and the counter exactly as RunFrom says (lowest free slot each round, reset by Created with that round's draw, `task_list` pointing at it), the created pointers in order, and appends them to the queue while the ring has room |
| Fcfs.FcfsScheduler.Handle | fcfs_scheduler.c:80-110 | a dequeued finished process is skipped with nothing changed; an unfinished one ends as Ran says (its own struct and the archived copy while there is room), and unless the stop flag is set the batch that follows leaves the pool as RunFrom says from there, with the queue gaining its pointers |
| Fcfs.FcfsScheduler.WorkerStep | fcfs_scheduler.c:62-111 | one pass of `core_worker`: an empty queue makes the worker leave (stop set) or wait and changes nothing; otherwise the oldest entry is dequeued; a NULL or finished one changes nothing else, and an unfinished one runs as Ran says, is archived while there is room, and is followed by the batch RunFrom describes unless the stop flag is set, its pointers queued behind the rest |
| RoundRobin.TimeSlice | rr_scheduler.c:63-66 | the slice is the quantum or what remains of the burst, whichever is smaller |
| RoundRobin.Sliced | rr_scheduler.c:58-71 | a dispatch puts the process on the core, sets the start time only on its first dispatch, and makes the slice's prints (none for a slice below 1) |
| RoundRobin.SliceStaysWithinBurst | rr_scheduler.c:63-71 | a slice never takes the prints past the burst or below where they were |
| RoundRobin.SliceFinishesIff | rr_scheduler.c:63-73 | with a quantum of at least 1, a dispatch finishes the process exactly when what remains fits in the quantum |
| RoundRobin.NoProgressWithoutQuantum | rr_scheduler.c:63-71 | with a quantum below 1 an unfinished process makes no progress at all |
| RoundRobin.DispatchesIsCeiling | rr_scheduler.c:63-86 | a process with r prints left needs ceil(r / quantum) dispatches |
| RoundRobin.DispatchesFinish | rr_scheduler.c:63-86 | each slice short of the last uses up one of those dispatches, and the last one finishes the process |
| RoundRobin.Finished | rr_scheduler.c:73-75 | a completed process is marked finished with the end time, its prints unchanged |
| RoundRobin.SlotOfSum | rr_scheduler.c:19-24 | the slot of a counter plus n is the slot of the counter's slot plus n |
| RoundRobin.RrScheduler.Contents | rr_scheduler.c:14-25 | the queued processes in leaving order while at most ten are queued |
| RoundRobin.RrScheduler.constructor | rr_scheduler.c:14-16 | the zero-initialised globals: an empty queue and no stop |
| RoundRobin.RrScheduler.Enqueue | rr_scheduler.c:18-20 | `rr_enqueue` stores p in slot rr_rear mod 10 with no check; p leaves last while fewer than ten were queued, and otherwise overwrites the oldest |
| RoundRobin.RrScheduler.Dequeue | rr_scheduler.c:22-25 | `rr_dequeue` gives NULL exactly when the queue is empty; otherwise the entry at rr_front mod 10, the oldest while at most ten are queued |
| RoundRobin.RrScheduler.Reset | rr_scheduler.c:95-96 | `start_rr_scheduler`'s resets empty the queue and clear the stop flag |
| RoundRobin.RrScheduler.Stop | rr_scheduler.c:116-124 | `stop_rr_scheduler_now` sets the stop flag and empties the queue |
| RoundRobin.RrScheduler.Admit | rr_scheduler.c:29-37 | one creation resets a slot as a fresh process, counts it and enqueues it |
| RoundRobin.RrScheduler.Round | rr_scheduler.c:28-37 | one round: a -1 from `find_free_process_slot` ends the batch with every slot busy; otherwise the drawn burst resets the slot, as the next round of RunFrom says, and it is enqueued |
| RoundRobin.RrScheduler.CreateBatch | rr_scheduler.c:27-39 | `create_batch_processes` leaves the structs, `task_list` and the counter exactly as RunFrom says, moves `rr_rear` on by the number created, at most batch_size, enqueues the created pointers in creation order, and stops early with a defined outcome only when no slot is free |
| RoundRobin.RrScheduler.Start | rr_scheduler.c:93-98 | `start_rr_scheduler` empties the queue, clears the stop flag, then leaves the pool as the first batch of RunFrom says, with exactly its pointers queued |
| RoundRobin.RrScheduler.Dispatch | rr_scheduler.c:58-86 | a dispatched process runs one slice as Sliced says; once its prints reach the burst its struct becomes Finished, the copy is archived while there is room, and the batch that follows leaves the pool as RunFrom says; otherwise the sliced struct goes back to the tail of the queue |
| RoundRobin.RrScheduler.WorkerStep | rr_scheduler.c:44-88 | one pass of `rr_core_worker`: an empty queue makes the worker leave (stop set) or wait and changes nothing; otherwise the front entry is dequeued; a NULL or finished one changes nothing else; an unfinished one runs one slice and either goes back to the tail or finishes and is followed by the batch RunFrom describes, the queue being the rest followed by what was enqueued |
| RoundRobin.RunSlice | rr_scheduler.c:58-71 | the slice loop leaves the process exactly as Sliced says |
| Barebones.LeadingBlanks | barebones.c:34 | the leading run of spaces and tabs, ending at the first other character |
| Barebones.TrailingBlanks | barebones.c:35-36 | the trailing run of spaces and tabs, ending at the last other character |
| Barebones.Trim | barebones.c:33-38 | `trim` never lengthens a string |
| Barebones.TrimIs | barebones.c:33-38 | `trim` gives exactly the infix with only blanks outside it and no blank at either of its ends |
| Barebones.LeadingBlanksIs | barebones.c:34 | the count of leading blanks is the one position with blanks before it and none at it |
| Barebones.TrailingBlanksIs | barebones.c:36 | the count of trailing blanks is the one position with blanks after it and none just before |
| Barebones.TrimIdempotent | barebones.c:33-38 | trimming a trimmed string changes nothing |
| Barebones.TrimInPlace | barebones.c:33-38 | on the buffer, `trim` returns the index past the leading blanks, leaves the trimmed string there, overwrites the trailing blanks with NUL and touches nothing else |
| Barebones.Lookup | barebones.c:19-22 | the search finds the first entry with the name, and finds none exactly when no entry carries it |
| Barebones.Truncate | barebones.c:24-25 | the stored name is a prefix of the given one, at most 15 characters long |
| Barebones.VarSlot | barebones.c:18-30 | `get_var` only ever appends to the table, and the slot it returns is in the table |
| Barebones.KnownNameFound | barebones.c:19-22 | a known name gets its first slot back and the table is unchanged |
| Barebones.GetVarIdempotent | barebones.c:18-30 | for a name of at most 15 characters, a second `get_var` finds the slot the first one gave, with no change |
| Barebones.LongNameNeverFound | barebones.c:20-27 | a name longer than 15 characters is stored truncated, so each lookup of it adds a fresh entry holding 0 |
| Barebones.FullTableRefuses | barebones.c:23-29 | with 64 entries, an unknown name gets NULL |
| Barebones.Assign | barebones.c:49-91 | an assignment through a `get_var` pointer stores the value modulo 2^16 in that slot only |
| Barebones.FindLast | barebones.c:53-111 | `strrchr` finds the last occurrence, and none exactly when the character is absent |
| Barebones.SafeCopy | barebones.c:41-43 | the copy into `safe_instr` holds at most 255 characters of the instruction |
| Barebones.Clip | barebones.c:60-81 | `snprintf` into `inside` keeps a prefix of at most 127 characters |
| Barebones.ParseDeclare | barebones.c:47-48 | the DECLARE `sscanf` gives a name that fits `var[16]` and an `int` |
| Barebones.Bind3 | barebones.c:67-69 | the three `get_var` calls only append to the table and give slots inside it |
| Barebones.ApplyArithOfSlots | barebones.c:67-91 | once the three slots are bound, ADD or SUBTRACT stores the sum or difference of the two operands modulo 2^16 into the result |
| Barebones.ParsePrint | barebones.c:94-102 | PRINT reads a message of at most 127 characters, and a variable name only when the instruction holds a '+' |
| Barebones.RepeatOf | barebones.c:112-113 | the FOR repeat count read is an `int` |
| Barebones.Pieces | barebones.c:118-134 | the cut of a prefix of the FOR body always has at least one piece |
| Barebones.Split | barebones.c:118-134 | the FOR body gives at least one piece, none longer than the body |
| Barebones.PiecesShort | barebones.c:118-134 | no piece of a prefix is longer than the prefix |
| Barebones.JoinNewPiece | barebones.c:125-128 | starting a new piece adds one comma to the joined text |
| Barebones.PiecesStep | barebones.c:122-134 | one more character updates the bracket depth, and starts a new piece exactly at a comma outside brackets and extends the last piece otherwise |
| Barebones.JoinExtendLast | barebones.c:122-134 | a character added to the last piece is added at the end of the joined text |
| Barebones.JoinPieces | barebones.c:118-134 | the cut loses nothing: joining the pieces with commas gives the body back |
| Barebones.PiecesGrow | barebones.c:122-134 | a longer prefix never gives fewer pieces, so the 17th-token refusal is final |
| Barebones.ForArgs | barebones.c:110-116 | the FOR body is shorter than the instruction |
| Barebones.SubtractIsUnknown | barebones.c:72 | a correctly spelt SUBTRACT instruction only prints the unknown-instruction message and changes no variable |
| Barebones.DeclareStoresModulo | barebones.c:46-49 | `DECLARE(name, k)` stores k modulo 2^16 into the named variable and prints nothing |
| Barebones.DeclareLayout | barebones.c:48 | where the name, comma, space, number and parenthesis of a DECLARE instruction sit |
| Barebones.ParseDeclareOf | barebones.c:48 | the DECLARE `sscanf` reads back the name and number the instruction was written with |
| Barebones.ScanName | barebones.c:48 | `%[^,]` reads a comma-free name up to the comma after it |
| Barebones.ScanCount | barebones.c:48 | the white space and `%d` read the number written after one space |
| Barebones.DeclareExec | barebones.c:46-49 | a DECLARE whose `sscanf` gives a blank-free name and k stores k modulo 2^16 into that variable |
| Barebones.LiteralOperandReadsZero | barebones.c:67-70 | a number used as an operand is a variable named by its digits, so ADD(x, 7, 7) stores 0 into x |
| Barebones.ForArgsAt | barebones.c:110-116 | with the last ']' at e, white space from two characters after it and then a number not followed by a digit, FOR reads the body before e and that count |
| Barebones.CountAfterBracket | barebones.c:112-113 | the `%d` two characters after the last ']' skips white space and reads the number written there when no digit follows it |
| Barebones.ForTextArgs | barebones.c:110-116 | the FOR arguments of `FOR([body], c)`, with its closing parenthesis, are the body and c |
| Barebones.ForCount | barebones.c:109-140 | `FOR([body], c)` with its closing parenthesis runs c rounds of the trimmed pieces of its body when it has at most 16, and only prints the too-many message otherwise |
| Barebones.ForCountDefaultsToOne | barebones.c:109-140 | a FOR instruction whose text two characters after the last ']' holds no number keeps `repeat` at 1 and runs the pieces of its body once |
| Barebones.ForWithoutCount | barebones.c:109-140 | `FOR([body])` reads no count, so its body runs once |
| Barebones.ExecFor | barebones.c:46-109 | an instruction starting with `FOR([` reaches the FOR branch |
| Barebones.ForStepOf | barebones.c:118-140 | once the body and count are read, the FOR branch prints the too-many message for more than 16 pieces and otherwise runs the count's rounds |
| Barebones.RunTokensSnoc | barebones.c:137-139 | running one more token runs it on the state the earlier tokens left |
| Barebones.RunTokensStaysUndefined | barebones.c:137-139 | once a token's outcome is undefined, so is the whole round |
| Barebones.RunRepeatStaysUndefined | barebones.c:136-140 | once a round's outcome is undefined, so are all further rounds |
| Barebones.RunRepeatUnfolds | barebones.c:136-140 | r + 1 rounds are one round followed by r more |
| Barebones.SleepRecordsMicros | barebones.c:104-107 | SleepStep: `SLEEP(k)` records a `usleep` of k * 1000 microseconds and changes nothing else |
| Barebones.PrintMessage | barebones.c:94-102 | PrintStep: `PRINT("msg")` without a '+' prints ">> msg" and a newline and changes no variable |
| Barebones.EmptyAddRefused | barebones.c:51-57 | ArithStep: `ADD()` with nothing between the parentheses prints the refusal and changes no variable |
| Barebones.ArgumentsText | barebones.c:52-57 | the ADD and SUBTRACT argument text lies strictly inside the instruction |
| Barebones.OperandThenComma | barebones.c:62 | one `%31[^,]` conversion and its ',' stop inside the text |
| Barebones.ArgumentsOf | barebones.c:52-57 | for `p(args)` with no '(' in p and args not empty, the argument text is args |
| Barebones.ScanOperandsOf | barebones.c:60-83 | the three-operand `sscanf` over `x, a, b` reads back x, a and b when each fits 31 characters and holds no ',' |
| Barebones.ArithOperandsOf | barebones.c:51-91 | `ADD(r, a, b)` and the SUBTRACT form give the operand names r, a and b, with r of at most 30 characters for ADD because of the space its `snprintf` puts in front |
| Barebones.ApplyArithCases | barebones.c:67-91 | ADD and SUBTRACT are undefined when a `get_var` gives NULL, and otherwise store the sum or difference into the bound result slot |
| Barebones.ExecArith | barebones.c:46-72 | an instruction starting with `ADD(` reaches the ADD branch, one starting with `S UBTRACT` the SUBTRACT branch |
| Barebones.ArithExecOf | barebones.c:51-91 | an ADD or SUBTRACT whose operand names are read is undefined on a NULL and otherwise changes only the table, storing the sum or difference |
| Barebones.AddStoresSum | barebones.c:51-70 | `ADD(r, a, b)` binds r, a and b in that order and stores the sum of the values of a and b modulo 2^16 into r; undefined on a NULL |
| Barebones.SubtractStoresDifference | barebones.c:72-91 | `S UBTRACT(r, a, b)` binds r, a and b in that order and stores the difference of the values of a and b modulo 2^16 into r; undefined on a NULL |
| Barebones.LongOperandUnread | barebones.c:60-65 | behind the leading space, a result name of 31 characters fills the `%31[^,]` width and the ',' after it is not matched |
| Barebones.AddLongResultUnread | barebones.c:59-65 | an ADD whose result name has 31 characters only prints "ADD instruction." and changes no variable, since its `snprintf` puts a space in front |
| Barebones.PrintVarOf | barebones.c:96-97 | the PRINT `sscanf` over `PRINT("msg"+x)` reads back the message msg and the name x |
| Barebones.ExecPrint | barebones.c:46-94 | an instruction starting with `PRINT(` reaches the PRINT branch |
| Barebones.PrintStepOf | barebones.c:96-98 | PRINT with a message and a name prints ">> ", the message and the variable's value in decimal, undefined on a NULL |
| Barebones.PrintMessageAndValue | barebones.c:94-98 | `PRINT("msg"+x)` prints ">> ", msg, the value of x in decimal and a newline, x added holding 0 when new; undefined on a NULL |
| Barebones.RunDispatchesTrimmed | barebones.c:40-45 | Run: `barebones` runs the instruction with its surrounding blanks trimmed, so those blanks make no difference |
| Barebones.Interpreter.State | barebones.c:15-16 | the table never holds more than 64 variables |
| Barebones.Interpreter.constructor | barebones.c:15-16 | the zero-initialised table with no variable and nothing printed |
| Barebones.Interpreter.GetVar | barebones.c:18-30 | `get_var` changes the table exactly as VarSlot says and returns its slot, or -1 for NULL with nothing changed |
| Barebones.Interpreter.Store | barebones.c:49-91 | an assignment through a `get_var` pointer stores the value modulo 2^16 in that slot only |
| Barebones.Interpreter.Declare | barebones.c:46-49 | the DECLARE branch changes the state exactly as DeclareStep says |
| Barebones.Interpreter.Arith | barebones.c:51-91 | the ADD and SUBTRACT branches change the state exactly as ArithStep says |
| Barebones.Interpreter.Apply | barebones.c:67-91 | the three lookups and the assignment change only the table, as ApplyArith says |
| Barebones.Interpreter.GetVars | barebones.c:67-69 | the three `get_var` calls give the slots Bind3 gives, or a NULL |
| Barebones.Interpreter.Print | barebones.c:94-102 | the PRINT branch adds exactly the line PrintStep says to the trace |
| Barebones.Interpreter.Sleep | barebones.c:104-107 | the SLEEP branch records the `usleep` request SleepStep says |
| Barebones.Interpreter.For | barebones.c:109-140 | the FOR branch changes the state exactly as ForStep says |
| Barebones.Interpreter.RunRepeated | barebones.c:136-140 | the outer FOR loop runs `repeat` rounds of the tokens |
| Barebones.Interpreter.RunRound | barebones.c:137-139 | one round runs each token, trimmed, in order |
| Barebones.Interpreter.Barebones | barebones.c:40-145 | `barebones` changes the state exactly as Run says |
| Barebones.Tokenize | barebones.c:118-134 | the tokenising loop succeeds exactly when the body has at most 16 pieces, and then gives exactly those pieces |

## Left out

- Threads, mutexes, condition variables, `pthread_detach` and `busy_wait_ticks`: each loop body of a scheduler or core thread is modelled as one sequential step (`WorkerStep`, `Tick`). Interleavings are not modelled.
- `start_scheduler` and `stop_scheduler` of src/scheduler.c only start and join the thread that runs `scheduler_loop`, so only one pass of its loop body (src/scheduler.c:59-74) is modelled, as `Scheduler.Tick`.
- The clock readings `start_time` and `end_time` of the root `core_worker`, and the `rand()` values `get_random_burst` of scheduler_utils.c draws, become parameters. The `time(NULL)` stamp of src/process.c is not modelled (see the Exec, Execute line), and the `rand()` draws of `generate_dummy_process` are left out with it (see below). In the root build, `usleep` only waits; in barebones, the requested sleeps become trace events.
- Console output: `printf` diagnostics, `print_process_info`, `screen_ls`, `rr_screen_ls` and `print_backing_store_contents` write only to the console. The barebones trace of PRINT output is the exception and is modelled.
- `generate_dummy_process` draws random instruction lists for the command-line interface. That interface is not part of this model, and neither are src/cli.c, src/screen.c, CSOPESY_C.c, report_util.c or the older implementations.
- Memory allocation failure: `malloc` and `realloc` are taken to succeed. Running out of memory is not modelled.
- The allocator and backing-store functions that the headers declare but no source file defines are not part of this model.
- `read_from_memory` and `write_to_memory` are outside the model. READ takes the words memory holds as a function parameter `mem`. WRITE's store into memory is not modelled; only its resolution of the address operand on the variable table is.
- The `Process` struct is modelled with the fields src/process.c uses, except `last_exec_time` (see the Exec, Execute line). Header declarations that no source file uses, such as a fixed loop depth, are not modelled; the loop-stack bound is a parameter.
- The backing-store file is modelled as a sequence of whole records. A partial trailing record left by a short write is not modelled.
- `global_process_counter` and the pids it issues are unbounded integers. Its `int` overflow after 2^31 processes is not modelled.
- RoundRobin.RrScheduler.Contents: `rr_front` and `rr_rear` grow without bound and are taken as unbounded integers, so their `int` overflow is not modelled. The FIFO view is stated while at most ten processes are queued; beyond that the C code overwrites the oldest slot, and Enqueue states exactly that overwrite.
- Barebones.ForArgs: when the last ']' is the 255th character of the copied instruction, `sscanf(end + 2, ...)` reads past the end of `safe_instr`; the model reads empty text there, so the count stays 1. Shorter instructions are exact: `strncpy` pads `safe_instr` with NULs, so the text after a final ']' is empty, as modelled.
- Barebones: tokens are modelled as strings, not as pointers into the shared buffer.
- Instruction widths: include/process.h declares `value` and `sleep_until_tick` as `uint16_t`, but it lacks the READ, WRITE and FOR kinds and the fields src/process.c uses, so src/process.c cannot be built against it. The model takes `value` as the `int` the parsers read and the wake-up tick as a `uint64_t` like `CPU_TICKS`.
- Exec, Execute: the wall-clock stamp `p->last_exec_time = time(NULL)` that `execute_instruction` makes after each instruction that does not put the process to sleep (src/process.c:234-235) is not modelled. Only the console code outside this model reads it.
- Exec, Run and the other steps that can be undefined: once a step is `None`, the model carries no state past it, and a sequence of steps stays undefined. What the C program would go on to do after undefined behaviour is not modelled.
- ReadStep and StoreRead: when the store goes through a freed pointer, `defined` is false and the new state of the object is left unstated, since C does not fix it.
- RootProcess.Ptr: a `Process *` of the root build is modelled as NULL or a slot of `process_list`. Every pointer the root code creates is `&process_list[idx]`, so no other pointer value arises.

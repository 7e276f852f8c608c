# avrdude GUI: argument builder and output buffer

This project models the core of a small desktop front end for `avrdude`, the
command-line programmer for AVR microcontrollers. The front end has a form
with these inputs:
- the serial port, programmer, chip, hex file, configuration file override and baud rate;
- five check boxes for avrdude's global flags;
- a verbosity selector.

Three buttons (Flash, Read, Erase) turn the form into an avrdude argument
list and run avrdude. Its output streams into a text entry, which is kept
under a size bound.

The model has three files:

- `wrappers.dfy`: module `Wrappers`, the `Option` type.
- `avrdude_args.dfy`: module `AvrdudeArgs`.
  - `BuildAvrdudeArgs` is the imperative model of `buildAvrdudeArgs`. Each group of successive appends to the local slice is one helper method: `AppendVerbosity`, `AppendGlobalFlags`, `AppendConnection` and `AppendOperation`.
  - The method is proved equal to the specification function `ArgList`.
  - `ButtonArgs` models the three button handlers, with what each passes (`ButtonTemplate`, `ButtonRequest`).
  - `ParseArgs` reads an argument list back into an `Invocation`. It is the independent partner of `ArgList`.
  - `ParseArgList` proves that the parse recovers every input the list was built from.
  - Further lemmas state the order of the flags, the place of each group, and what each button's list contains.
- `output_buffer.dfy`: module `OutputBuffer`.
  - The class `OutputBox` holds the entry's text as bytes; Go's `len` on a string counts bytes.
  - `Append` models the text half of `appendOutput`.
  - `Replay` folds a sequence of appends made one after another. The lemmas about it prove:
    - the buffer is always a suffix of everything written;
    - it never exceeds 200000 bytes;
    - nothing is lost while the total stays within the bound;
    - the most recent 180000 bytes (or everything, when less) are always kept.

The `fmt.Sprintf(writeTemplate, hexfile)` call only ever sees the two
templates `-Uflash:w:%s:i` and `-Uflash:r:%s:i`. A template is therefore modelled
as the text before and after its single `%s` (`Template(prefix, suffix)`).
The empty template of the Erase button is `None`.

`appendOutput` only concatenates and truncates; carriage returns and other
control bytes get no special handling, and the model treats every byte alike.

## Model

| member | source | states |
|---|---|---|
| AvrdudeArgs.ConfPath | main.go:251-254 | The `-C` path is the override when one is given, else the bundled `avrdude/avrdude.conf`; it is never empty. |
| AvrdudeArgs.VerbosityLevel | main.go:259-274 | Exactly "1" to "4" request `-v`s, as many as the digit says; every other choice (empty, "0", anything invalid) requests none. |
| AvrdudeArgs.FlagTokensSpec | main.go:276-291 | The global flags appear in the fixed order -F -V -D -e -n, and each flag is in the list exactly when its box is ticked. |
| AvrdudeArgs.PortTokens | main.go:293-295 | `-P port` is emitted exactly when a real port is selected, and the "no ports found" placeholder is never passed to avrdude as a port. |
| AvrdudeArgs.OperationToken | main.go:308-314 | The operation token is the template with the hex path in place of `%s`, or with `-` (standard input/output) when no path is given. |
| AvrdudeArgs.BuildAvrdudeArgs | main.go:247-317 | The successive appends produce exactly `ArgList`: the `-C` pair, the `-v`s, the flags, the `-P`/`-b`/`-c`/`-p` pairs present, then the operation token. |
| AvrdudeArgs.AppendVerbosity | main.go:259-274 | The verbosity switch appends exactly `VerbosityLevel` copies of `-v` to the list it is given. |
| AvrdudeArgs.AppendGlobalFlags | main.go:276-291 | The five independent `if`s append exactly the ticked flags, in order. |
| AvrdudeArgs.AppendConnection | main.go:293-306 | The port (when a real one is selected), baud, programmer and chip pairs are appended in that order, each only when non-empty. |
| AvrdudeArgs.AppendOperation | main.go:308-314 | The operation token is appended only when there is a template. |
| AvrdudeArgs.ParseArgList | main.go:247-317 | For a Flash or Read template, reading the built list back yields every input: the config path, the verbosity level, each flag, the port exactly when it is a real one, the baud, programmer and chip when given, and the operation token. The list is unambiguous. |
| AvrdudeArgs.ArgListOpening | main.go:251-274 | Every list opens with `-C` and the config path, followed by the requested number of `-v`; for the Flash, Read and Erase templates the run of `-v` ends there. |
| AvrdudeArgs.OperationLast | main.go:308-314 | The operation token is the last element, and the list without a template is the same list without it. |
| AvrdudeArgs.ButtonTemplate | main.go:167-222 | Only the Erase button passes no operation template. |
| AvrdudeArgs.ButtonRequest | main.go:205-220 | Flash and Read pass the form as it is; Erase passes an empty hex path and forces the erase flag. |
| AvrdudeArgs.ButtonArgs | main.go:167-222 | Each button's list is `ArgList` of that button's template and request. |
| AvrdudeArgs.ButtonInvocation | main.go:167-222 | For every button and form: the list parses; the flags read back are the boxes (with `-e` forced for Erase); the placeholder port never appears; a port appears exactly when a real one is selected; only Erase has no operation token; Flash/Read tokens split back into the button and the path (or `-`). |
| AvrdudeArgs.FlashTokenOf | main.go:167-203 | The Flash and Read tokens split back into the operation and the hex path, or `-` when none was given. |
| AvrdudeArgs.EraseArgs | main.go:205-220 | The Erase list always contains `-e`. It is the list a memory operation with an empty path would build, minus its operation token. |
| AvrdudeArgs.ParseFlagsOf | main.go:276-291 | Reading the flags back recovers exactly which boxes were ticked and leaves the rest of the list untouched. |
| AvrdudeArgs.RunLengthOfRepeat | main.go:259-274 | Counting leading `-v`s recovers the verbosity level. |
| OutputBuffer.Bounded | main.go:393-397 | The text kept after an append is a suffix of the concatenation, at most 200000 bytes, and all of it when it fits; otherwise exactly the last 180000 bytes. |
| OutputBuffer.OutputBox.Append | main.go:392-401 | The new text is `Bounded(old text + fragment)`: never over 200000 bytes, always the tail of the old text followed by the fragment, and unchanged content when nothing overflows. |
| OutputBuffer.ReplayIsSuffix | main.go:392-401 | After any series of appends that do not overlap, the buffer is the tail of everything ever written. |
| OutputBuffer.ReplayLossless | main.go:392-401 | While everything written stays within 200000 bytes, no byte is dropped. |
| OutputBuffer.ReplayBounded | main.go:392-401 | After at least one append, the buffer never holds more than 200000 bytes, whatever it held before. |
| OutputBuffer.ReplayKeepsRecent | main.go:392-401 | The buffer always keeps at least the last 180000 bytes written, or everything when less was written. |

## Left out

- The GUI itself is not modelled: widgets, layout, dialogs, dropdown population, and the `SendNotification` and `Refresh` calls inside `appendOutput`. None of it changes the argument list or the text.
- The scroll-to-bottom part of `appendOutput` (main.go:402-409) is not modelled. It depends on rendered widget heights.
- `runAvrdudeAndAttachOutput` and `scanPipeToOutput` are not modelled. They start a subprocess, read its pipes in goroutines with a line scanner, and call `appendOutput` once per line. The model starts from the fragments they pass, as the `fragments` of `Replay`.
- Replay: models appends that run one after another. The program calls `appendOutput` from three goroutines without a lock: the two `scanPipeToOutput` readers and the `cmd.Wait` closure (main.go:370-380). Each call reads the text (main.go:393) and writes it back (main.go:400), so two overlapping calls can lose a fragment. The `Replay` lemmas (suffix of everything written, nothing lost within the bound, recent bytes kept) hold only for appends that do not overlap.
- `locateAvrdude` is not modelled. It searches the filesystem and depends on the runtime operating system.
- Serial port enumeration is not modelled; it is a foreign call. The chosen port is an input string.
- ConfPath: the default path is the `/`-joined `avrdude/avrdude.conf`. On Windows `filepath.Join` would use `\`, which is not modelled.
- OperationToken: general `fmt.Sprintf` verbs are not modelled. Only a template with a single `%s` is, which is the only form the buttons pass.
- BuildAvrdudeArgs: the body is split into four helper methods, one per group of appends. Each appends to the slice exactly as the original's consecutive statements do.
- ParseArgList: the round trip is stated for Flash and Read templates, whose token starts with `-U`. An arbitrary template could produce a token that reads as a flag.

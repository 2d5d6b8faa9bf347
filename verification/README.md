# lut-cube in Dafny

A model of the `.cube` colour lookup-table reader of the `lut-cube` crate.
The reader makes one pass over the lines of a file. Each line is skipped,
taken as a comment, taken as a directive (`TITLE`, `LUT_1D_SIZE`,
`LUT_3D_SIZE`, the input-range and video-range directives, `DOMAIN_MIN`,
`DOMAIN_MAX`), or taken as a row of three floats. Rows fill the declared
cubes through a `Collector`, a write cursor over a cube's buffer. A first
cube that is completed while a second cube is still pending becomes the
shaper. The parse returns a `Lut` when the primary cube is full.

The project has two layers:

- **Values.** `CubeValue`, `CollectorValue` and the parse `State` describe
  the data. `PushStep`, `Step` and `Feed` are step functions over them.
  Together they state what the reader does, line by line and for whole
  files.
- **Objects.** `Cube` and `Collector` are classes whose buffers are arrays
  written in place, as the crate writes them. The local variables of
  `Lut::parse` are held by a `Parser` object, with one method per branch
  of the loop body. `Parse` runs the loop. Each method is proved to carry
  out the step function for its branch. `Parse` is proved to return what
  `Run` gives for the same lines.

Files:

| file | module | contents |
|---|---|---|
| `wrappers.dfy` | `Wrappers` | `Option`, `Result` |
| `text.dfy` | `Text` | lines as bytes, `split_once`, the `u16` parser and its decimal round trip |
| `error.dfy` | `Errors` | `Error`, and `Outcome` (a result or a panic) |
| `cube.dfy` | `Cubes` | `Cube`, its constructors and accessors, `parse_input_range` |
| `collector.dfy` | `Collecting` | `Collector::with_cube` and `push`, on values and on objects |
| `lut.dfy` | `Luts` | `Lut`, the step function of `parse` and its driver `Feed` / `Run` |
| `parser.dfy` | `Parsing` | the `Parser` object and the `Parse` loop |
| `lut_properties.dfy` | `LutProperties` | what each kind of line does; rows filling a collector |
| `lut_files.dfy` | `LutFiles` | whole files: concatenation, the end of the parse, shaper and cube files, size corner cases |
| `soundness.dfy` | `LutInvariant` | the invariant every reachable parse state keeps, where panics come from, what `parse` can return |

The reader's input and the float parser are parameters:

- **Lines.** The lines are a sequence of byte strings, each as `read_line`
  returns it, newline included. An empty string is `read_line` returning
  0, that is, the end of input.
- **Floats.** `str::parse::<f32>` is a parameter, `parseF32`. An `f32`
  is its 32-bit pattern.

### Where the code and its description differ

The model follows the code, `src/lut.rs`:

- Lines are split at the first single space (`' '`). Tabs and runs of
  spaces are not delimiters, and nothing is trimmed.
- The last byte of every line is dropped, whether or not it is a newline.
- Only `LUT_1D_SIZE` sets `possible_shaper`. A later size directive of
  either dimension then moves the pending cube to the shaper slot. So:
  - `1D m, 3D n, 3D q` leaves a 3D shaper (`ThreeDShaper`);
  - `3D n, 1D m` loses the 3D cube (`ThreeDFirstReplaced`).
- Directives are recognised only while no collector is active. Once the
  data has begun, a directive followed by a space is refused as
  `InvalidRgb` (`CollectingIgnoresDirectives`). A bare keyword with no
  space is skipped, like any other line without a space
  (`UnsplitLineSkipped`).
- The third word of a row is the whole rest of the line after the second
  space.
- A cube of size 1 on which the first data row opens a collector (the
  only cube declared, or a shaper) is completed by that row. That push's
  result is dropped, so the cube is lost (`SizeOneCubeIsLost`). A size-1
  primary cube behind a shaper is not affected: its collector opens when
  the shaper completes, and its row completes it through an ordinary push
  (`SizeOnePrimaryKept`).
- A cube of size 0 panics on its first row (`SizeZeroPanics`).
- `lut.rs:185` converts the argument with `InputRange::try_from`, which
  the crate does not define. The model reads it as
  `parse_input_range(b, &[' '])`, the crate's own range parser. A failure
  is `InvalidInputRange(b)`.

## Model

| member | source | states |
|---|---|---|
| Text.FindAny | src/lut.rs:129 | The index of the first delimiter: `None` exactly when there is none. Otherwise that byte is a delimiter and no byte before it is. |
| Text.SplitOnce | src/lut.rs:129-131 | `split_once(' ')`: `None` exactly when no byte is a delimiter. Otherwise the line is `before + [delimiter] + after`, and `before` holds no delimiter. |
| Text.SplitOnceAt | src/lut.rs:129-131 | Splitting `x + [d] + y`, where `x` holds no delimiter, gives back exactly `(x, y)`. |
| Text.ParseU16 | src/lut.rs:168 | `b.parse::<u16>()`: `Empty` exactly for the empty text. An accepted text is decimal digits after an optional `+`, and the result is their value. Digits after an optional `+` give their value when it is below 65536 and `PosOverflow` otherwise. `InvalidDigit` exactly for a lone `+` or when the digit loop meets a non-digit first. |
| Text.AccumulateDigits | src/lut.rs:168 | The digit loop of the `u16` parser: on an all-digit text, the value read after `acc` when below 65536, else `PosOverflow`. It is never `Empty`, and accepts only digits. |
| Text.ParsePadded | src/lut.rs:168 | Leading zeros and a leading `+` do not change the value: `007` and `+7` read as 7. |
| Text.ParseWide | src/lut.rs:168 | A decimal number of 65536 or more is `PosOverflow`. |
| Text.FirstNonDigit | src/lut.rs:168 | A non-digit after digits worth less than 65536 is `InvalidDigit`. |
| Text.ParseDecimal | src/lut.rs:166-180 | Every `u16` written in decimal parses back to itself. |
| Text.ValueOfDecimal | src/lut.rs:168 | The decimal digits of any number, however large, have that number as their value. |
| Cubes.OneDValue | src/cube.rs:21-28 | `one_d(size)`: dimension 1, no input range, `3·size` zeros. |
| Cubes.ThreeDValue | src/cube.rs:30-37 | `three_d(size)`: dimension 3, no input range, `3·size³` zeros. |
| Cubes.WholeTriples | src/cube.rs:21-37 | Every buffer a constructor builds holds whole RGB triples. |
| Cubes.ParseInputRange | src/cube.rs:10-18 | Text with no delimiter is refused. |
| Cubes.ParseInputRangeAt | src/cube.rs:10-18 | With the first delimiter after `x`, the result is `x..=y` exactly when both halves parse, in either order; otherwise it is refused. |
| Cubes.Cube.OneD | src/cube.rs:21-28 | The constructed cube's value is `OneDValue(size)`, over a fresh buffer. |
| Cubes.Cube.ThreeD | src/cube.rs:30-37 | The constructed cube's value is `ThreeDValue(size)`, over a fresh buffer. |
| Cubes.Cube.SetInputRange | src/cube.rs:51-53 | Replaces the input range and nothing else. |
| Cubes.Cube.Raw | src/cube.rs:59-61 | The buffer, element by element, of length `r_len`. |
| Cubes.Cube.RLen | src/cube.rs:55-57 | The buffer length. For a built cube it is `3·size` (1D) or `3·size³` (3D), a multiple of 3. |
| Collecting.StartedFilling | src/lut.rs:23-30 | `Started(c)`, the collector `with_cube` builds, is in the collector invariant `Filling` when `c` is a constructed cube: cursor 0 and capacity the buffer length, both whole triples. |
| Collecting.PushStep | src/lut.rs:33-46 | `push` as a value: it never changes the capacity and never gives a cube back to an emptied collector. The cursor moves by exactly 3 on success and otherwise nothing changes. The only error is `CubeIsFull`, exactly when the cube was already handed back. |
| Collecting.PushKeepsFilling | src/lut.rs:33-46 | Under the invariant, a push panics exactly when the buffer is empty. A push that does not panic keeps the invariant. |
| Collecting.FullCollectorRefuses | src/lut.rs:34-36 | After the cube is handed back, a push is `CubeIsFull` and changes nothing. |
| Collecting.PushWritesWindow | src/lut.rs:37-45 | A push with room writes the triple at `len..len+3` and keeps every other slot and the shape. The cursor moves by 3. The cube is handed back exactly when the cursor reaches the capacity. |
| Collecting.FillsOnLastPush | src/lut.rs:33-46 | Pushing the rows that fill the rest of the buffer: every push but the last is `Ok(None)`. The last hands back the cube holding the rows in order, and the collector is left empty. |
| Collecting.StaysFull | src/lut.rs:34-36 | An emptied collector refuses every later push and stays as it is. |
| Collecting.Collector.WithCube | src/lut.rs:23-30 | The new collector's value is `Started(cube)`, and it owns that very cube. |
| Collecting.Collector.Push | src/lut.rs:33-46 | The outcome and the new collector are `PushStep` of the old one. A completed cube is the same object that was collected into. Under the collector invariant, it panics exactly on an empty buffer, and any other push keeps the invariant. |
| Collecting.FlattenAt | src/lut.rs:39 | Row `i` of a sequence of rows sits at `3i..3i+3` of the buffer they fill. |
| Luts.AppendComment | src/lut.rs:121-125 | The earlier comments stay a prefix, and the new comment ends the text. A newline separates them exactly when there were earlier comments. |
| Luts.ParseRgb | src/lut.rs:134-140 | A rest without a space cannot give a row, and the first float is the first word's. |
| Luts.ParseDomain | src/lut.rs:188-196 | An argument without a space cannot give a triple. |
| Luts.Advance | src/lut.rs:107-111 | A line that does not end the parse hands the rest of the lines its new state. |
| Parsing.Parser.constructor | src/lut.rs:93-104 | The locals as `parse` declares them: the start state. |
| Parsing.Parser.TakeLine | src/lut.rs:112-160 | One line of the loop body carries out `Step` on the old state. It either continues with the new state or returns the outcome `Step` gives. |
| Parsing.Parser.TakeComment | src/lut.rs:120-127 | A comment line changes the comments to `AppendComment` of the old ones and nothing else. |
| Parsing.Parser.TakeRow | src/lut.rs:133-141 | A line while collecting carries out `CollectRow`: three floats pushed, or `InvalidRgb`. |
| Parsing.Parser.TakePush | src/lut.rs:142-159 | The push into the active collector carries out `PushRow`. |
| Parsing.Parser.TakeCompleted | src/lut.rs:143-157 | A completed cube carries out `Completed`. With a cube pending it becomes the shaper and a collector opens on the pending cube; otherwise the `Lut` is returned. |
| Parsing.Parser.TakeHeader | src/lut.rs:162-223 | A line with no active collector carries out `Directed`, dispatching on its first word. |
| Parsing.Parser.TakeSetting | src/lut.rs:163-165 | `TITLE`, the video-range flags and the domain directives carry out `Setting`. |
| Parsing.Parser.TakeDomain | src/lut.rs:187-202 | `DOMAIN_MIN` / `DOMAIN_MAX` carry out `Domain`: three floats, or `InvalidRgb`. |
| Parsing.Parser.TakeSize | src/lut.rs:166-180 | Size directives carry out `Declare`: the shaper hand-over and the `InvalidSize` error. |
| Parsing.Parser.TakeInputRange | src/lut.rs:181-186 | Input-range directives carry out `SetRange`: `UnexpectedInputRange` with no pending cube, `InvalidInputRange` on bad text. |
| Parsing.Parser.TakeFirstRow | src/lut.rs:203-218 | The first data row carries out `FirstRow`: the pending shaper, else the pending cube, else `UnexpectedData`. |
| Parsing.Parser.Open | src/lut.rs:212-221 | A collector opens on the picked cube and takes the row, carrying out `OpenCollector`. |
| Parsing.Parse | src/lut.rs:92-225 | `Lut::parse` returns exactly what `Run` gives for the same lines. Between lines the parser's state keeps `Sound`, and an active collector keeps its invariant. |
| LutProperties.Keywords | src/lut.rs:162-202 | Every directive keyword is a single word, and `DirectiveOf` decodes it as its directive. |
| LutProperties.ShortLineSkipped | src/lut.rs:112-115 | A line shorter than two bytes changes nothing. |
| LutProperties.CutCharacterPanics | src/lut.rs:117-118 | A line whose last byte continues a UTF-8 character panics when cut. |
| LutProperties.UnsplitLineSkipped | src/lut.rs:129-131 | A non-comment line without a space changes nothing, collector or not. |
| LutProperties.BareFlagIgnored | src/lut.rs:129-131 | `LUT_IN_VIDEO_RANGE` or `LUT_OUT_VIDEO_RANGE` alone on a line sets nothing. |
| LutProperties.CommentAppended | src/lut.rs:120-127 | A `#` line joins the comments, after one newline if there were comments already. |
| LutProperties.CommentsInOrder | src/lut.rs:120-127 | Comment lines leave the comments joined in file order by single newlines. |
| LutProperties.SpacedLine | src/lut.rs:129-162 | A line `word arg` is a data row while collecting and a header line keyed by `word` otherwise. |
| LutProperties.TitleLine | src/lut.rs:163 | `TITLE` keeps everything after the first space. |
| LutProperties.FlagLines | src/lut.rs:164-165 | The video-range directives set their flag, whatever follows. |
| LutProperties.SizeLine | src/lut.rs:166-180 | A size directive is `InvalidSize` on a bad number. Otherwise it declares the cube and moves the pending one to the shaper slot exactly when a 1D size came before. |
| LutProperties.InputRangeLine | src/lut.rs:181-186 | An input-range directive sets the pending cube's range and nothing else. It is `UnexpectedInputRange` with no cube pending and `InvalidInputRange` on bad text. |
| LutProperties.ParseDomainAt | src/lut.rs:188-196 | Three space-separated floats read as the triple they spell; anything else is refused. |
| LutProperties.DomainLine | src/lut.rs:187-202 | `DOMAIN_MIN` / `DOMAIN_MAX` set their bound, or give `InvalidRgb` naming the line. |
| LutProperties.CollectingIgnoresDirectives | src/lut.rs:133-140 | While collecting, a first word that is not a float, including a keyword, gives `InvalidRgb`. |
| LutProperties.UnreadRowRefused | src/lut.rs:203-210 | `FirstRow`, and `CollectRow` as at lines 133-140: a row whose words do not read as three floats is `InvalidRgb` naming the line. With no collector, this happens before the missing-cube check of `OpenFirst`. |
| LutProperties.TwoWordsUnread | src/lut.rs:134-136 | A row of two words lacks its third float and is refused. |
| LutProperties.DomainDirected | src/lut.rs:187-202 | `Directed` and `Setting` send `DOMAIN_MIN` / `DOMAIN_MAX` to `Domain` for the bound they name. |
| LutProperties.OneWordDomainRefused | src/lut.rs:188-190 | `DOMAIN_MIN` / `DOMAIN_MAX` with one word is `InvalidRgb` naming the line. |
| LutProperties.TwoWordDomainRefused | src/lut.rs:191-193 | `DOMAIN_MIN` / `DOMAIN_MAX` with two words is `InvalidRgb` naming the line. |
| LutProperties.UnsplitRangeRefused | src/lut.rs:181-186 | `SetRange` on an argument without a space: `UnexpectedInputRange` with no cube pending, otherwise `InvalidInputRange` naming the argument. |
| LutProperties.ParseRgbAt | src/lut.rs:134-140 | A row's three words read as its triple. |
| LutProperties.ParseRgbWords | src/lut.rs:134-140 | A row `x y z` reads as the triple its words spell exactly when all three parse; otherwise it is refused. |
| LutProperties.RowStep | src/lut.rs:133-222 | A data row is pushed into the active collector, or else opens one. |
| LutProperties.FirstRowOpens | src/lut.rs:203-221 | The first row opens a collector on the shaper, else the cube, and writes the first triple. No cube gives `UnexpectedData`; an empty buffer panics; a one-triple buffer is completed and dropped. |
| LutProperties.CollectorOpened | src/lut.rs:212-221 | Opening a collector writes the row into the first triple of the cube. |
| LutProperties.PartialRows | src/lut.rs:133-159 | Rows that do not reach the end of the buffer are written one triple after another from the cursor on. |
| LutProperties.FillingRows | src/lut.rs:133-158 | Rows that reach the end of the buffer complete the cube, holding the rows in order. |
| LutProperties.FillFirst | src/lut.rs:133-221 | Rows that exactly fill the picked cube complete it holding all of them, in order. |
| LutFiles.FeedConcat | src/lut.rs:107-224 | Reading `xs + ys` is reading `xs`, then `ys` unless the parse ended. |
| LutFiles.StopsAtHalt | src/lut.rs:107-224 | After the parse ends, no further line is read. |
| LutFiles.OnlyFilledCubeReturns | src/lut.rs:142-157 | A `Lut` is returned only by the row that fills the active collector while no cube is pending. The `Lut` carries the parse variables and the collector's own cube: the one its push hands back, with the same shape, input range and rows already written, and one more triple at the cursor. |
| LutFiles.NoHeaderReturns | src/lut.rs:162-223 | No header line returns a `Lut`. |
| LutFiles.SizeLineRead | src/lut.rs:166-180 | `LUT_nD_SIZE n`, written in decimal, declares the cube of size `n`. |
| LutFiles.DeclaredCubeRead | src/lut.rs:92-225 | From any header state with no cube, a size line and the rows filling the cube return that cube, with the state's title, comments, flags and domain. |
| LutFiles.OneCubeFile | src/lut.rs:92-225 | A one-cube file reads as that cube holding its rows in order, with no shaper. |
| LutFiles.HeaderedFile | src/lut.rs:92-225 | A title and comments before the cube end up in the `Lut`. |
| LutFiles.TruncatedCubeIsEof | src/lut.rs:107-111 | A cube whose rows stop short of filling it ends in `Eof`. |
| LutFiles.ShaperThenCubeFile | src/lut.rs:142-157 | `1D m, 3D n`, then both tables' rows, reads as a 1D shaper and a 3D cube holding their rows in order. |
| LutFiles.SizeOneCubeIsLost | src/lut.rs:220 | A size-1 cube declared alone is lost at its first row, which opens its collector. The file ends in `Eof`, or in `CubeIsFull` on a second row. |
| LutFiles.SizeOnePrimaryKept | src/lut.rs:142-157 | A size-1 3D cube behind a 1D shaper is returned holding its single row. |
| LutFiles.SizeZeroPanics | src/lut.rs:39 | A size-0 cube panics on its first row. |
| LutFiles.ThreeDShaper | src/lut.rs:174-177 | After a 1D size, a 3D cube can become the shaper, and the 1D cube is lost. |
| LutFiles.ThreeDFirstReplaced | src/lut.rs:170-179 | A 1D size after a 3D one replaces the pending 3D cube. |
| LutInvariant.StartSound | src/lut.rs:94-104 | The start state is `Sound`: no cube and no collector. |
| LutInvariant.PushRowSound | src/lut.rs:142-159 | `PushRow` and `Completed` keep `Sound`: the cube handed back is constructed, and so is the collector opened on a pending primary cube. A panic means an empty buffer. No `Eof` or `Io`, and a returned `Lut` holds constructed cubes. |
| LutInvariant.OpenCollectorSound | src/lut.rs:212-221 | `OpenCollector` on a constructed cube keeps `Sound`, and panics only on an empty buffer. |
| LutInvariant.DeclareSound | src/lut.rs:166-180 | `Declare` keeps `Sound` and never panics. |
| LutInvariant.SetRangeSound | src/lut.rs:181-186 | `SetRange` keeps `Sound` and never panics. |
| LutInvariant.FirstRowSound | src/lut.rs:203-221 | `FirstRow` and `OpenFirst` keep `Sound`, and panic only when the picked cube is empty. |
| LutInvariant.HeaderSound | src/lut.rs:162-223 | `Directed` keeps `Sound` for every directive and for a first row. |
| LutInvariant.StepKeepsSound | src/lut.rs:112-223 | `Step` keeps `Sound`. A line panics only by cutting a multi-byte character, or as a row pushed into an empty buffer. A line never gives `Eof` or `Io`. |
| LutInvariant.FeedKeepsSound | src/lut.rs:107-224 | `Feed` keeps `Sound`. `Eof` comes only from an empty line, `Io` never, and a returned `Lut` holds constructed cubes. |
| LutInvariant.ReachedSound | src/lut.rs:92-225 | Every state reached from the start is `Sound`, so an active collector keeps its cursor inside its buffer. |
| LutInvariant.PanicSources | src/lut.rs:112-223 | In a reached state, a panic comes only from cutting a multi-byte character or from pushing into a size-0 cube. |
| LutInvariant.RunOutcomes | src/lut.rs:92-225 | `Run` never gives `Io`, and gives `Eof` only when the input runs out or reaches an empty line. A returned `Lut` holds a constructed cube and shaper. |

## Left out

- I/O: the lines are given as a sequence. Read errors, invalid UTF-8 included, are not modelled, so `Error::Io` is never produced; a line is any byte string.
- Float parsing: `str::parse::<f32>` is the parameter `parseF32`; rounding, `inf` and `NaN` are its business.
- Integer width: `usize` arithmetic is unbounded here. `three_d` sizes cannot overflow a 64-bit `usize`.
- Non-ASCII delimiters: `split_once` is matched byte by byte, which agrees with the crate for the ASCII space it uses.
- `ParseIntError` is `IntErrorKind` (empty, invalid digit, overflow). The `From` conversions in `src/error.rs` are written as the error constructors they build.
- The `rgb` scratch array in `parse` is a fresh triple per row. Every path writes all three slots before reading them.
- Getters of `Lut` and `Cube` (`title`, `dim`, `size`, `input_range`, …) are fields of the model.
- The `black_magic` test in `src/lib.rs` reads files from disk. `ShaperThenCubeFile` states the shape that test checks.
- `InputRange::try_from` is not part of this model. The crate does not define it, and the model reads it as `parse_input_range` at a single space.

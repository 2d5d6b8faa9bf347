/**
 * `Lut::parse`: a single pass over the lines of a `.cube` file. Each line is
 * skipped, taken as a comment, taken as a directive, or taken as a row of
 * colour data; rows fill the declared cubes through collectors, and the
 * parse ends when the primary cube is full.
 */
module Luts {
  import opened Wrappers
  import opened Text
  import opened Errors
  import opened Cubes
  import opened Collecting

  /** The parse result as a value. */
  datatype LutValue = LutValue(
    title: Option<seq<Byte>>,
    comments: seq<Byte>,
    inVideoRange: bool,
    outVideoRange: bool,
    cube: CubeValue,
    shaper: Option<CubeValue>,
    domainMin: Option<Rgb>,
    domainMax: Option<Rgb>)

  /** `Lut`, its getters read as fields; `shaper == null` stands for `None`. */
  datatype Lut = Lut(
    title: Option<seq<Byte>>,
    comments: seq<Byte>,
    inVideoRange: bool,
    outVideoRange: bool,
    cube: Cube,
    shaper: Cube?,
    domainMin: Option<Rgb>,
    domainMax: Option<Rgb>)

  /** The words recognised at the start of a line outside the data rows. */
  datatype Directive = Title | InVideoRange | OutVideoRange | Size1D | Size3D | InputRangeDirective | DomainMin | DomainMax

  const KeyTitle: seq<Byte> := "TITLE"
  const KeyInVideoRange: seq<Byte> := "LUT_IN_VIDEO_RANGE"
  const KeyOutVideoRange: seq<Byte> := "LUT_OUT_VIDEO_RANGE"
  const Key1DSize: seq<Byte> := "LUT_1D_SIZE"
  const Key3DSize: seq<Byte> := "LUT_3D_SIZE"
  const Key1DInputRange: seq<Byte> := "LUT_1D_INPUT_RANGE"
  const Key3DInputRange: seq<Byte> := "LUT_3D_INPUT_RANGE"
  const KeyDomainMin: seq<Byte> := "DOMAIN_MIN"
  const KeyDomainMax: seq<Byte> := "DOMAIN_MAX"

  function DirectiveOf(word: seq<Byte>): Option<Directive>
  {
    if word == KeyTitle then Some(Title)
    else if word == KeyInVideoRange then Some(InVideoRange)
    else if word == KeyOutVideoRange then Some(OutVideoRange)
    else if word == Key1DSize then Some(Size1D)
    else if word == Key3DSize then Some(Size3D)
    else if word == Key1DInputRange || word == Key3DInputRange then Some(InputRangeDirective)
    else if word == KeyDomainMin then Some(DomainMin)
    else if word == KeyDomainMax then Some(DomainMax)
    else None
  }

  /** The local variables of `parse` between two lines, as values. */
  datatype State = State(
    title: Option<seq<Byte>>,
    comments: seq<Byte>,
    inVideoRange: bool,
    outVideoRange: bool,
    possibleShaper: bool,
    cube: Option<CubeValue>,
    shaper: Option<CubeValue>,
    collector: Option<CollectorValue>,
    domainMin: Option<Rgb>,
    domainMax: Option<Rgb>)

  const Start: State := State(None, [], false, false, false, None, None, None, None, None)

  /** After one line: carry on in a new state, or leave `parse` with an outcome. */
  datatype Transition = Next(state: State) | Halt(outcome: Outcome<LutValue>)

  /** `comments` after a comment line: joined to earlier comments by one newline. */
  function AppendComment(comments: seq<Byte>, s: seq<Byte>): (r: seq<Byte>)
    ensures |r| == |comments| + |s| + (if comments == [] then 0 else 1)
    ensures comments <= r && r[|r| - |s|..] == s
    ensures comments != [] ==> r[|comments|] == NEWLINE
  {
    if comments == [] then s else comments + [NEWLINE] + s
  }

  /** Three floats from `first` and the two space-separated words of `rest`. */
  function ParseRgb(first: seq<Byte>, rest: seq<Byte>, parseF32: F32Parser): (r: Option<Rgb>)
    ensures (forall k :: 0 <= k < |rest| ==> rest[k] != SPACE) ==> r.None?
    ensures r.Some? ==> parseF32(first) == Some(r.value[0])
  {
    match SplitOnce(rest, {SPACE})
    case None => None
    case Some((g, b)) =>
      match (parseF32(first), parseF32(g), parseF32(b))
      case (Some(x), Some(y), Some(z)) => Some([x, y, z])
      case _ => None
  }

  /** The argument of `DOMAIN_MIN` / `DOMAIN_MAX`: three space-separated floats. */
  function ParseDomain(arg: seq<Byte>, parseF32: F32Parser): (r: Option<Rgb>)
    ensures (forall k :: 0 <= k < |arg| ==> arg[k] != SPACE) ==> r.None?
  {
    match SplitOnce(arg, {SPACE})
    case None => None
    case Some((r, gb)) => ParseRgb(r, gb, parseF32)
  }

  /** The `Lut` built when the primary cube is complete. */
  function Finished(st: State, done: CubeValue): LutValue
  {
    LutValue(st.title, st.comments, st.inVideoRange, st.outVideoRange, done, st.shaper, st.domainMin, st.domainMax)
  }

  /** One line of the text: the body of the loop in `parse`. */
  function Step(st: State, line: seq<Byte>, parseF32: F32Parser): Transition
  {
    if |line| < 2 then Next(st)
    else if IsContinuation(line[|line| - 1]) then Halt(Panicked)
    else
      var s := line[..|line| - 1];
      if s[0] == HASH then Next(st.(comments := AppendComment(st.comments, s)))
      else match SplitOnce(s, {SPACE})
        case None => Next(st)
        case Some((a, b)) =>
          if st.collector.Some? then CollectRow(st, line, a, b, parseF32)
          else HeaderLine(st, line, a, b, parseF32)
  }

  /** A line with a space while a collector is active: always a data row. */
  function CollectRow(st: State, line: seq<Byte>, a: seq<Byte>, b: seq<Byte>, parseF32: F32Parser): Transition
    requires st.collector.Some?
  {
    match ParseRgb(a, b, parseF32)
    case None => Halt(Returned(Err(InvalidRgb(line))))
    case Some(rgb) => PushRow(st, rgb)
  }

  /** A data row pushed into the active collector. */
  function PushRow(st: State, rgb: Rgb): Transition
    requires st.collector.Some?
  {
    var pushed := PushStep(st.collector.value, rgb);
    match pushed.outcome
    case Panicked => Halt(Panicked)
    case Returned(Err(e)) => Halt(Returned(Err(e)))
    case Returned(Ok(None)) => Next(st.(collector := Some(pushed.after)))
    case Returned(Ok(Some(done))) => Completed(st, done)
  }

  /**
   * A collector has filled `done`: a pending primary cube makes `done` the
   * shaper and gets a collector of its own; otherwise `done` is the result.
   */
  function Completed(st: State, done: CubeValue): Transition
  {
    match st.cube
    case Some(primary) => Next(st.(shaper := Some(done), cube := None, collector := Some(Started(primary))))
    case None => Halt(Returned(Ok(Finished(st, done))))
  }

  /** A line with a space and no active collector: a directive, or the first data row. */
  function HeaderLine(st: State, line: seq<Byte>, a: seq<Byte>, b: seq<Byte>, parseF32: F32Parser): Transition
  {
    Directed(st, line, DirectiveOf(a), a, b, parseF32)
  }

  /** A header line whose first word decodes as `directive`. */
  function Directed(st: State, line: seq<Byte>, directive: Option<Directive>, a: seq<Byte>, b: seq<Byte>, parseF32: F32Parser): Transition
  {
    match directive
    case Some(Size1D) => Declare(st, 1, b)
    case Some(Size3D) => Declare(st, 3, b)
    case Some(InputRangeDirective) => SetRange(st, line, b, parseF32)
    case Some(setting) => Setting(st, line, setting, b, parseF32)
    case None => FirstRow(st, line, a, b, parseF32)
  }

  /** The directives that only set a variable of `parse`. */
  predicate IsSetting(d: Directive)
  {
    d.Title? || d.InVideoRange? || d.OutVideoRange? || d.DomainMin? || d.DomainMax?
  }

  /** `TITLE`, `LUT_IN_VIDEO_RANGE`, `LUT_OUT_VIDEO_RANGE`, `DOMAIN_MIN` and `DOMAIN_MAX` with argument `arg`. */
  function Setting(st: State, line: seq<Byte>, d: Directive, arg: seq<Byte>, parseF32: F32Parser): Transition
    requires IsSetting(d)
  {
    if d == Title then Next(st.(title := Some(arg)))
    else if d == InVideoRange then Next(st.(inVideoRange := true))
    else if d == OutVideoRange then Next(st.(outVideoRange := true))
    else Domain(st, line, d == DomainMin, arg, parseF32)
  }

  /** `DOMAIN_MIN` (`isMin`) or `DOMAIN_MAX`: three floats, or `InvalidRgb` naming the line. */
  function Domain(st: State, line: seq<Byte>, isMin: bool, arg: seq<Byte>, parseF32: F32Parser): Transition
  {
    match ParseDomain(arg, parseF32)
    case None => Halt(Returned(Err(InvalidRgb(line))))
    case Some(rgb) => if isMin then Next(st.(domainMin := Some(rgb))) else Next(st.(domainMax := Some(rgb)))
  }

  /** `LUT_1D_INPUT_RANGE` / `LUT_3D_INPUT_RANGE`: the range of the pending cube. */
  function SetRange(st: State, line: seq<Byte>, arg: seq<Byte>, parseF32: F32Parser): Transition
  {
    match st.cube
    case None => Halt(Returned(Err(UnexpectedInputRange(line))))
    case Some(c) =>
      match ParseInputRange(arg, {SPACE}, parseF32)
      case None => Halt(Returned(Err(InvalidInputRange(arg))))
      case Some(range) => Next(st.(cube := Some(c.(inputRange := Some(range)))))
  }

  /**
   * `LUT_1D_SIZE` / `LUT_3D_SIZE`: once a 1D size has been seen, the pending
   * cube moves to the shaper slot; only the 1D directive raises the flag.
   */
  function Declare(st: State, dim: nat, arg: seq<Byte>): Transition
    requires dim == 1 || dim == 3
  {
    match ParseU16(arg)
    case Err(kind) => Halt(Returned(Err(InvalidSize(kind))))
    case Ok(size) =>
      var declared := if dim == 1 then OneDValue(size) else ThreeDValue(size);
      if st.possibleShaper then Next(st.(shaper := st.cube, cube := Some(declared)))
      else if dim == 1 then Next(st.(possibleShaper := true, cube := Some(declared)))
      else Next(st.(cube := Some(declared)))
  }

  /**
   * The first data row: a collector opens on the pending shaper, else on the
   * pending cube, and takes the row; what that first push returns is dropped.
   */
  function FirstRow(st: State, line: seq<Byte>, a: seq<Byte>, b: seq<Byte>, parseF32: F32Parser): Transition
  {
    match ParseRgb(a, b, parseF32)
    case None => Halt(Returned(Err(InvalidRgb(line))))
    case Some(rgb) => OpenFirst(st, rgb)
  }

  /** The collector for the first row takes the pending shaper, else the pending cube. */
  function OpenFirst(st: State, rgb: Rgb): Transition
  {
    if st.shaper.Some? then OpenCollector(st.(shaper := None), st.shaper.value, rgb)
    else if st.cube.Some? then OpenCollector(st.(cube := None), st.cube.value, rgb)
    else Halt(Returned(Err(UnexpectedData)))
  }

  function OpenCollector(st: State, c: CubeValue, rgb: Rgb): Transition
  {
    var pushed := PushStep(Started(c), rgb);
    match pushed.outcome
    case Panicked => Halt(Panicked)
    case Returned(Err(e)) => Halt(Returned(Err(e)))
    case Returned(Ok(_)) => Next(st.(collector := Some(pushed.after)))
  }

  /**
   * The lines one after another until one ends the parse; an empty line is
   * `read_line` returning 0, the end of the input.
   */
  function Feed(st: State, lines: seq<seq<Byte>>, parseF32: F32Parser): Transition
    decreases |lines|
  {
    if lines == [] then Next(st)
    else if lines[0] == [] then Halt(Returned(Err(Eof)))
    else match Step(st, lines[0], parseF32)
      case Next(st') => Feed(st', lines[1..], parseF32)
      case Halt(outcome) => Halt(outcome)
  }

  /** A line that does not end the parse hands the rest of the lines its new state. */
  lemma Advance(st: State, lines: seq<seq<Byte>>, parseF32: F32Parser)
    requires lines != [] && lines[0] != [] && Step(st, lines[0], parseF32).Next?
    ensures Feed(st, lines, parseF32) == Feed(Step(st, lines[0], parseF32).state, lines[1..], parseF32)
  {
  }

  /** What `parse` returns for the given lines: running out of lines is `Eof`. */
  function Run(lines: seq<seq<Byte>>, parseF32: F32Parser): Outcome<LutValue>
  {
    match Feed(Start, lines, parseF32)
    case Next(_) => Returned(Err(Eof))
    case Halt(outcome) => outcome
  }

  ghost function Footprint(c: Cube?): set<object>
  {
    if c == null then {} else {c, c.rgbs}
  }

  ghost function CubeView(c: Cube?): Option<CubeValue>
    reads Footprint(c)
  {
    if c == null then None else Some(c.Value())
  }

  ghost function CollectorFootprint(k: Collector?): set<object>
    reads k
  {
    if k == null then {} else {k} + Footprint(k.cube)
  }

  ghost function CollectorView(k: Collector?): Option<CollectorValue>
    reads k, CollectorFootprint(k)
  {
    if k == null then None else Some(k.Value())
  }

  ghost function LutView(l: Lut): LutValue
    reads Footprint(l.cube), Footprint(l.shaper)
  {
    LutValue(l.title, l.comments, l.inVideoRange, l.outVideoRange, l.cube.Value(), CubeView(l.shaper),
             l.domainMin, l.domainMax)
  }

  ghost function OutcomeView(r: Outcome<Lut>): Outcome<LutValue>
    reads if r.Returned? && r.result.Ok? then Footprint(r.result.value.cube) + Footprint(r.result.value.shaper) else {}
  {
    match r
    case Panicked => Panicked
    case Returned(Err(e)) => Returned(Err(e))
    case Returned(Ok(l)) => Returned(Ok(LutView(l)))
  }
}

/**
 * The invariant `Lut::parse` keeps between lines: every cube it holds has a
 * shape its constructors can produce, and an active collector keeps the
 * collector invariant. From it follows where a panic can come from.
 */
module LutInvariant {
  import opened Wrappers
  import opened Text
  import opened Errors
  import opened Cubes
  import opened Collecting
  import opened Luts
  import opened LutProperties

  /** A cube slot that is empty or holds a constructed cube. */
  predicate Shaped(c: Option<CubeValue>)
  {
    c.Some? ==> WellShaped(c.value)
  }

  /** The pending cube, the pending shaper and the active collector are all well formed. */
  predicate Sound(st: State)
  {
    && Shaped(st.cube)
    && Shaped(st.shaper)
    && (st.collector.Some? ==> Filling(st.collector.value))
  }

  /**
   * The parse is about to push into an empty buffer: the active collector
   * holds a cube of size 0, or with no collector the cube the next row would
   * open one on has size 0.
   */
  predicate EmptyBufferNext(st: State)
  {
    if st.collector.Some? then
      st.collector.value.cube.Some? && |st.collector.value.cube.value.rgbs| == 0
    else
      Picked(st).Some? && |Picked(st).value.rgbs| == 0
  }

  /**
   * How one line may end the parse: never with `Eof` or `Io`, which only the
   * input itself produces, and a returned `Lut` holds constructed cubes.
   */
  predicate WellEnded(t: Transition)
  {
    && t != Halt(Returned(Err(Eof)))
    && t != Halt(Returned(Err(Io)))
    && (t.Halt? && t.outcome.Returned? && t.outcome.result.Ok? ==>
          WellShaped(t.outcome.result.value.cube) && Shaped(t.outcome.result.value.shaper))
  }

  lemma StartSound()
    ensures Sound(Start)
  {
  }

  /**
   * A row pushed into the active collector keeps the invariant: the cube it
   * completes is well shaped, and so is the collector a pending primary cube
   * then gets. It panics only on an empty buffer.
   */
  lemma PushRowSound(st: State, rgb: Rgb)
    requires Sound(st) && st.collector.Some?
    ensures PushRow(st, rgb).Next? ==> Sound(PushRow(st, rgb).state)
    ensures PushRow(st, rgb) == Halt(Panicked) ==> EmptyBufferNext(st)
    ensures WellEnded(PushRow(st, rgb))
  {
    var k := st.collector.value;
    PushKeepsFilling(k, rgb);
    if k.cube.Some? && k.capacity > 0 {
      PushWritesWindow(k, rgb);
      var p := PushStep(k, rgb);
      if p.outcome.result.value.Some? {
        var done := p.outcome.result.value.value;
        assert WellShaped(done);
        if st.cube.Some? {
          StartedFilling(st.cube.value);
        }
      }
    }
  }

  /** A collector opened on a constructed cube keeps the invariant; it panics only on an empty buffer. */
  lemma OpenCollectorSound(st: State, c: CubeValue, rgb: Rgb)
    requires Shaped(st.cube) && Shaped(st.shaper) && WellShaped(c)
    ensures OpenCollector(st, c, rgb).Next? ==> Sound(OpenCollector(st, c, rgb).state)
    ensures OpenCollector(st, c, rgb) == Halt(Panicked) ==> |c.rgbs| == 0
    ensures WellEnded(OpenCollector(st, c, rgb))
  {
    StartedFilling(c);
    PushKeepsFilling(Started(c), rgb);
  }

  /** A size directive keeps the invariant and never panics. */
  lemma DeclareSound(st: State, dim: nat, arg: seq<Byte>)
    requires Sound(st) && (dim == 1 || dim == 3)
    ensures Declare(st, dim, arg).Next? ==> Sound(Declare(st, dim, arg).state)
    ensures Declare(st, dim, arg) != Halt(Panicked)
    ensures WellEnded(Declare(st, dim, arg))
  {
  }

  /** An input-range directive keeps the invariant and never panics. */
  lemma SetRangeSound(st: State, line: seq<Byte>, arg: seq<Byte>, parseF32: F32Parser)
    requires Sound(st)
    ensures SetRange(st, line, arg, parseF32).Next? ==> Sound(SetRange(st, line, arg, parseF32).state)
    ensures SetRange(st, line, arg, parseF32) != Halt(Panicked)
    ensures WellEnded(SetRange(st, line, arg, parseF32))
  {
  }

  /** The first data row keeps the invariant, and panics only on an empty buffer. */
  lemma FirstRowSound(st: State, line: seq<Byte>, a: seq<Byte>, b: seq<Byte>, parseF32: F32Parser)
    requires Sound(st) && st.collector.None?
    ensures FirstRow(st, line, a, b, parseF32).Next? ==> Sound(FirstRow(st, line, a, b, parseF32).state)
    ensures FirstRow(st, line, a, b, parseF32) == Halt(Panicked) ==> EmptyBufferNext(st)
    ensures WellEnded(FirstRow(st, line, a, b, parseF32))
  {
    match ParseRgb(a, b, parseF32)
    case None =>
    case Some(rgb) =>
      if st.shaper.Some? {
        OpenCollectorSound(st.(shaper := None), st.shaper.value, rgb);
      } else if st.cube.Some? {
        OpenCollectorSound(st.(cube := None), st.cube.value, rgb);
      }
  }

  /** A header line keeps the invariant, and panics only when the first row meets an empty buffer. */
  lemma HeaderSound(st: State, line: seq<Byte>, d: Option<Directive>, a: seq<Byte>, b: seq<Byte>, parseF32: F32Parser)
    requires Sound(st) && st.collector.None?
    ensures Directed(st, line, d, a, b, parseF32).Next? ==> Sound(Directed(st, line, d, a, b, parseF32).state)
    ensures Directed(st, line, d, a, b, parseF32) == Halt(Panicked) ==> EmptyBufferNext(st)
    ensures WellEnded(Directed(st, line, d, a, b, parseF32))
  {
    match d
    case None => FirstRowSound(st, line, a, b, parseF32);
    case Some(Size1D) => DeclareSound(st, 1, b);
    case Some(Size3D) => DeclareSound(st, 3, b);
    case Some(InputRangeDirective) => SetRangeSound(st, line, b, parseF32);
    case Some(setting) =>
      assert Directed(st, line, d, a, b, parseF32) == Setting(st, line, setting, b, parseF32);
  }

  /** Every line that does not end the parse keeps the invariant. */
  lemma StepKeepsSound(st: State, line: seq<Byte>, parseF32: F32Parser)
    requires Sound(st)
    ensures Step(st, line, parseF32).Next? ==> Sound(Step(st, line, parseF32).state)
    ensures Step(st, line, parseF32) == Halt(Panicked) ==>
      (|line| >= 2 && IsContinuation(line[|line| - 1])) || EmptyBufferNext(st)
    ensures WellEnded(Step(st, line, parseF32))
  {
    if |line| >= 2 && !IsContinuation(line[|line| - 1]) {
      var s := line[..|line| - 1];
      if s[0] != HASH {
        match SplitOnce(s, {SPACE})
        case None =>
        case Some((a, b)) =>
          if st.collector.Some? {
            match ParseRgb(a, b, parseF32)
            case None =>
            case Some(rgb) => PushRowSound(st, rgb);
          } else {
            HeaderSound(st, line, DirectiveOf(a), a, b, parseF32);
          }
      }
    }
  }

  /**
   * Lines read one after another keep the invariant; `Eof` comes only from
   * an empty line, `Io` never, and a returned `Lut` holds constructed cubes.
   */
  lemma {:induction false} FeedKeepsSound(st: State, lines: seq<seq<Byte>>, parseF32: F32Parser)
    requires Sound(st)
    ensures Feed(st, lines, parseF32).Next? ==> Sound(Feed(st, lines, parseF32).state)
    ensures Feed(st, lines, parseF32) == Halt(Returned(Err(Eof))) ==> exists i :: 0 <= i < |lines| && lines[i] == []
    ensures Feed(st, lines, parseF32) != Halt(Returned(Err(Io)))
    ensures var t := Feed(st, lines, parseF32);
      t.Halt? && t.outcome.Returned? && t.outcome.result.Ok? ==>
        WellShaped(t.outcome.result.value.cube) && Shaped(t.outcome.result.value.shaper)
    decreases |lines|
  {
    if lines != [] && lines[0] != [] {
      StepKeepsSound(st, lines[0], parseF32);
      var t := Step(st, lines[0], parseF32);
      if t.Next? {
        FeedKeepsSound(t.state, lines[1..], parseF32);
        if Feed(t.state, lines[1..], parseF32) == Halt(Returned(Err(Eof))) {
          var i :| 0 <= i < |lines[1..]| && lines[1..][i] == [];
          assert lines[i + 1] == [];
        }
      }
    }
  }

  /**
   * Every state the parse reaches from the start satisfies the invariant;
   * in particular an active collector keeps its cursor inside its buffer.
   */
  lemma ReachedSound(lines: seq<seq<Byte>>, parseF32: F32Parser)
    ensures Feed(Start, lines, parseF32).Next? ==> Sound(Feed(Start, lines, parseF32).state)
  {
    StartSound();
    FeedKeepsSound(Start, lines, parseF32);
  }

  /**
   * In a state the parse reaches, a line panics only by cutting a multi-byte
   * character, or as a data row pushed into an empty buffer (a cube of size 0).
   */
  lemma PanicSources(lines: seq<seq<Byte>>, line: seq<Byte>, parseF32: F32Parser)
    requires Feed(Start, lines, parseF32).Next?
    requires Step(Feed(Start, lines, parseF32).state, line, parseF32) == Halt(Panicked)
    ensures (|line| >= 2 && IsContinuation(line[|line| - 1])) || EmptyBufferNext(Feed(Start, lines, parseF32).state)
  {
    ReachedSound(lines, parseF32);
    StepKeepsSound(Feed(Start, lines, parseF32).state, line, parseF32);
  }

  /**
   * What `parse` returns: never `Io`, which only a failing reader gives;
   * `Eof` only when the input runs out, or ends at an empty line; and a
   * returned `Lut` holds a cube, and perhaps a shaper, of a shape the
   * constructors produce.
   */
  lemma RunOutcomes(lines: seq<seq<Byte>>, parseF32: F32Parser)
    ensures Run(lines, parseF32) != Returned(Err(Io))
    ensures Run(lines, parseF32) == Returned(Err(Eof)) ==>
      Feed(Start, lines, parseF32).Next? || exists i :: 0 <= i < |lines| && lines[i] == []
    ensures Run(lines, parseF32).Returned? && Run(lines, parseF32).result.Ok? ==>
      WellShaped(Run(lines, parseF32).result.value.cube) && Shaped(Run(lines, parseF32).result.value.shaper)
  {
    StartSound();
    FeedKeepsSound(Start, lines, parseF32);
  }
}

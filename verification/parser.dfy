/**
 * The imperative side of `Lut::parse`: its local variables held by a
 * `Parser`, one method per branch of the loop body, and the loop itself.
 * Every method is proved against the step function it carries out.
 */
module Parsing {
  import opened Wrappers
  import opened Text
  import opened Errors
  import opened Cubes
  import opened Collecting
  import opened Luts
  import opened LutInvariant

  /** Two cube slots never share a cube or a buffer. */
  ghost predicate Apart(c: Cube?, d: Cube?)
  {
    c != null && d != null ==> c != d && c.rgbs != d.rgbs
  }

  /** The local variables of `parse` that outlive one line. */
  class Parser {
    var title: Option<seq<Byte>>
    var comments: seq<Byte>
    var inVideoRange: bool
    var outVideoRange: bool
    var possibleShaper: bool
    var cube: Cube?
    var shaper: Cube?
    var collector: Collector?
    var domainMin: Option<Rgb>
    var domainMax: Option<Rgb>
    ghost var Repr: set<object>

    /** Every slot's objects are owned, and no two slots share a cube. */
    ghost predicate Valid()
      reads this, Repr
    {
      this in Repr
      && Footprint(cube) <= Repr && Footprint(shaper) <= Repr
      && (collector != null ==> collector in Repr && Footprint(collector.cube) <= Repr)
      && Apart(cube, shaper)
      && (collector != null ==> Apart(cube, collector.cube) && Apart(shaper, collector.cube))
    }

    /** The variables as values: the state the step functions work on. */
    ghost function View(): State
      reads this, Repr
      requires Valid()
    {
      State(title, comments, inVideoRange, outVideoRange, possibleShaper,
            CubeView(cube), CubeView(shaper), CollectorView(collector), domainMin, domainMax)
    }

    /** The variables as `parse` declares them. */
    constructor ()
      ensures Valid() && fresh(Repr) && View() == Start
    {
      title := None;
      comments := [];
      inVideoRange := false;
      outVideoRange := false;
      possibleShaper := false;
      cube := null;
      shaper := null;
      collector := null;
      domainMin := None;
      domainMax := None;
      Repr := {this};
    }

    /** One line that `read_line` returned, as the body of the loop takes it. */
    method TakeLine(line: seq<Byte>, parseF32: F32Parser) returns (halt: Option<Outcome<Lut>>)
      requires Valid() && line != []
      modifies Repr
      ensures Valid() && fresh(Repr - old(Repr))
      ensures halt.None? ==> Step(old(View()), line, parseF32) == Next(View())
      ensures halt.Some? ==> Step(old(View()), line, parseF32) == Halt(OutcomeView(halt.value))
    {
      if |line| < 2 {
        return None;
      }
      if IsContinuation(line[|line| - 1]) {
        // `&line[..len - 1]` would cut a multi-byte character
        return Some(Panicked);
      }
      var s := line[..|line| - 1];
      if s[0] == HASH {
        TakeComment(s);
        return None;
      }
      var split := SplitOnce(s, {SPACE});
      if split.None? {
        return None;
      }
      var a, b := split.value.0, split.value.1;
      if collector != null {
        halt := TakeRow(line, a, b, parseF32);
      } else {
        halt := TakeHeader(line, DirectiveOf(a), a, b, parseF32);
      }
    }

    /** A comment line, its last byte dropped: joined to earlier comments by one newline. */
    method TakeComment(s: seq<Byte>)
      requires Valid()
      modifies this
      ensures Valid() && Repr == old(Repr)
      ensures View() == old(View()).(comments := AppendComment(old(comments), s))
    {
      if comments != [] {
        comments := comments + [NEWLINE];
      }
      comments := comments + s;
    }

    /** A line while a collector is active: a row pushed into it. */
    method TakeRow(line: seq<Byte>, a: seq<Byte>, b: seq<Byte>, parseF32: F32Parser) returns (halt: Option<Outcome<Lut>>)
      requires Valid() && collector != null
      modifies Repr
      ensures Valid() && fresh(Repr - old(Repr))
      ensures halt.None? ==> CollectRow(old(View()), line, a, b, parseF32) == Next(View())
      ensures halt.Some? ==> CollectRow(old(View()), line, a, b, parseF32) == Halt(OutcomeView(halt.value))
    {
      var rgb := ParseRgb(a, b, parseF32);
      if rgb.None? {
        return Some(Returned(Err(InvalidRgb(line))));
      }
      halt := TakePush(rgb.value);
    }

    /** A data row pushed into the active collector. */
    method TakePush(rgb: Rgb) returns (halt: Option<Outcome<Lut>>)
      requires Valid() && collector != null
      modifies Repr
      ensures Valid() && fresh(Repr - old(Repr))
      ensures halt.None? ==> PushRow(old(View()), rgb) == Next(View())
      ensures halt.Some? ==> PushRow(old(View()), rgb) == Halt(OutcomeView(halt.value))
    {
      ghost var st := View();
      ghost var spec := PushStep(st.collector.value, rgb);
      var pushed := collector.Push(rgb);
      assert PushedView(pushed) == spec.outcome;
      if pushed.Panicked? {
        return Some(Panicked);
      }
      if pushed.result.Err? {
        return Some(Returned(Err(pushed.result.error)));
      }
      assert View() == st.(collector := Some(spec.after));
      if pushed.result.value.None? {
        return None;
      }
      halt := TakeCompleted(pushed.result.value.value);
    }

    /** The cube `done` that a push has just filled. */
    method TakeCompleted(done: Cube) returns (halt: Option<Outcome<Lut>>)
      requires Valid() && collector != null && collector.cube == null
      requires Footprint(done) <= Repr && Apart(cube, done)
      modifies this
      ensures Valid() && fresh(Repr - old(Repr))
      ensures halt.None? ==> Completed(old(View()), old(done.Value())) == Next(View())
      ensures halt.Some? ==> Completed(old(View()), old(done.Value())) == Halt(OutcomeView(halt.value))
    {
      if cube != null {
        shaper := done;
        collector := new Collector.WithCube(cube);
        cube := null;
        Repr := Repr + {collector};
        return None;
      }
      return Some(Returned(Ok(Lut(title, comments, inVideoRange, outVideoRange, done, shaper,
                                  domainMin, domainMax))));
    }

    /** A line with no active collector: a directive, or the first data row. */
    method TakeHeader(line: seq<Byte>, directive: Option<Directive>, a: seq<Byte>, b: seq<Byte>, parseF32: F32Parser)
      returns (halt: Option<Outcome<Lut>>)
      requires Valid() && collector == null
      modifies Repr
      ensures Valid() && fresh(Repr - old(Repr))
      ensures halt.None? ==> Directed(old(View()), line, directive, a, b, parseF32) == Next(View())
      ensures halt.Some? ==> Directed(old(View()), line, directive, a, b, parseF32) == Halt(OutcomeView(halt.value))
    {
      if directive == Some(Size1D) {
        halt := TakeSize(1, b);
      } else if directive == Some(Size3D) {
        halt := TakeSize(3, b);
      } else if directive == Some(InputRangeDirective) {
        halt := TakeInputRange(line, b, parseF32);
      } else if directive.Some? {
        halt := TakeSetting(line, directive.value, b, parseF32);
      } else {
        halt := TakeFirstRow(line, a, b, parseF32);
      }
    }

    /** A directive that only sets a variable. */
    method TakeSetting(line: seq<Byte>, d: Directive, arg: seq<Byte>, parseF32: F32Parser) returns (halt: Option<Outcome<Lut>>)
      requires Valid() && IsSetting(d)
      modifies this
      ensures Valid() && Repr == old(Repr)
      ensures halt.None? ==> Setting(old(View()), line, d, arg, parseF32) == Next(View())
      ensures halt.Some? ==> Setting(old(View()), line, d, arg, parseF32) == Halt(OutcomeView(halt.value))
    {
      if d == Title {
        title := Some(arg);
      } else if d == InVideoRange {
        inVideoRange := true;
      } else if d == OutVideoRange {
        outVideoRange := true;
      } else {
        halt := TakeDomain(line, d == DomainMin, arg, parseF32);
        return;
      }
      return None;
    }

    /** `DOMAIN_MIN` (`isMin`) or `DOMAIN_MAX` with argument `arg`. */
    method TakeDomain(line: seq<Byte>, isMin: bool, arg: seq<Byte>, parseF32: F32Parser) returns (halt: Option<Outcome<Lut>>)
      requires Valid()
      modifies this
      ensures Valid() && Repr == old(Repr)
      ensures halt.None? ==> Domain(old(View()), line, isMin, arg, parseF32) == Next(View())
      ensures halt.Some? ==> Domain(old(View()), line, isMin, arg, parseF32) == Halt(OutcomeView(halt.value))
    {
      var rgb := ParseDomain(arg, parseF32);
      if rgb.None? {
        return Some(Returned(Err(InvalidRgb(line))));
      }
      if isMin {
        domainMin := rgb;
      } else {
        domainMax := rgb;
      }
      return None;
    }

    /** `LUT_1D_SIZE` (`dim == 1`) or `LUT_3D_SIZE` (`dim == 3`) with argument `arg`. */
    method TakeSize(dim: nat, arg: seq<Byte>) returns (halt: Option<Outcome<Lut>>)
      requires Valid() && collector == null && (dim == 1 || dim == 3)
      modifies this
      ensures Valid() && fresh(Repr - old(Repr))
      ensures halt.None? ==> Declare(old(View()), dim, arg) == Next(View())
      ensures halt.Some? ==> Declare(old(View()), dim, arg) == Halt(OutcomeView(halt.value))
    {
      if possibleShaper {
        shaper := cube;
        cube := null;
      } else if dim == 1 {
        possibleShaper := true;
      }
      var size := ParseU16(arg);
      if size.Err? {
        return Some(Returned(Err(InvalidSize(size.error))));
      }
      var declared: Cube;
      if dim == 1 {
        declared := new Cube.OneD(size.value);
      } else {
        declared := new Cube.ThreeD(size.value);
      }
      cube := declared;
      Repr := Repr + {declared, declared.rgbs};
      return None;
    }

    /** `LUT_1D_INPUT_RANGE` / `LUT_3D_INPUT_RANGE` with argument `arg`. */
    method TakeInputRange(line: seq<Byte>, arg: seq<Byte>, parseF32: F32Parser) returns (halt: Option<Outcome<Lut>>)
      requires Valid() && collector == null
      modifies Repr
      ensures Valid() && Repr == old(Repr)
      ensures halt.None? ==> SetRange(old(View()), line, arg, parseF32) == Next(View())
      ensures halt.Some? ==> SetRange(old(View()), line, arg, parseF32) == Halt(OutcomeView(halt.value))
    {
      if cube == null {
        return Some(Returned(Err(UnexpectedInputRange(line))));
      }
      var range := ParseInputRange(arg, {SPACE}, parseF32);
      if range.None? {
        return Some(Returned(Err(InvalidInputRange(arg))));
      }
      cube.SetInputRange(range);
      return None;
    }

    /** The first data row: a collector opens on the shaper, else on the cube, and takes it. */
    method TakeFirstRow(line: seq<Byte>, a: seq<Byte>, b: seq<Byte>, parseF32: F32Parser) returns (halt: Option<Outcome<Lut>>)
      requires Valid() && collector == null
      modifies Repr
      ensures Valid() && fresh(Repr - old(Repr))
      ensures halt.None? ==> FirstRow(old(View()), line, a, b, parseF32) == Next(View())
      ensures halt.Some? ==> FirstRow(old(View()), line, a, b, parseF32) == Halt(OutcomeView(halt.value))
    {
      var rgb := ParseRgb(a, b, parseF32);
      if rgb.None? {
        return Some(Returned(Err(InvalidRgb(line))));
      }
      var c: Cube;
      if shaper != null {
        c := shaper;
        shaper := null;
      } else if cube != null {
        c := cube;
        cube := null;
      } else {
        return Some(Returned(Err(UnexpectedData)));
      }
      halt := Open(c, rgb.value);
    }

    /** A collector opened on `c`, which no slot holds any more, taking its first row. */
    method Open(c: Cube, rgb: Rgb) returns (halt: Option<Outcome<Lut>>)
      requires Valid() && collector == null
      requires Footprint(c) <= Repr && Apart(cube, c) && Apart(shaper, c)
      modifies Repr
      ensures Valid() && fresh(Repr - old(Repr))
      ensures halt.None? ==> OpenCollector(old(View()), old(c.Value()), rgb) == Next(View())
      ensures halt.Some? ==> OpenCollector(old(View()), old(c.Value()), rgb) == Halt(OutcomeView(halt.value))
    {
      ghost var cv, cubeV, shaperV := c.Value(), CubeView(cube), CubeView(shaper);
      var started := new Collector.WithCube(c);
      Repr := Repr + {started};
      var first := started.Push(rgb);
      ghost var spec := PushStep(Started(cv), rgb);
      assert PushedView(first) == spec.outcome && started.Value() == spec.after;
      assert CubeView(cube) == cubeV && CubeView(shaper) == shaperV;
      if first.Panicked? {
        return Some(Panicked);
      }
      // The `?` on this push never propagates: a collector just built holds its cube.
      collector := started;
      return None;
    }
  }

  /** `Lut::parse`, reading `lines` as successive results of `read_line`. */
  method Parse(lines: seq<seq<Byte>>, parseF32: F32Parser) returns (r: Outcome<Lut>)
    ensures OutcomeView(r) == Run(lines, parseF32)
  {
    var parser := new Parser();
    StartSound();
    var i := 0;
    while true
      invariant i <= |lines|
      invariant parser.Valid() && fresh(parser.Repr)
      invariant Feed(parser.View(), lines[i..], parseF32) == Feed(Start, lines, parseF32)
      invariant Sound(parser.View())
      invariant parser.collector != null ==> parser.collector.Valid()
      decreases |lines| - i
    {
      if i == |lines| || lines[i] == [] {
        // `read_line` returned 0
        return Returned(Err(Eof));
      }
      ghost var before := parser.View();
      ghost var rest := lines[i..];
      var halt := parser.TakeLine(lines[i], parseF32);
      if halt.Some? {
        return halt.value;
      }
      StepKeepsSound(before, rest[0], parseF32);
      Advance(before, rest, parseF32);
      assert rest[1..] == lines[i + 1..];
      i := i + 1;
    }
  }
}

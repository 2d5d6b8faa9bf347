/**
 * What `Lut::parse` makes of whole files: the lines after the end of the
 * parse are never read, only a completed primary cube is returned, and
 * files of one cube, or of a 1D shaper and a 3D cube, read as the rows
 * they hold. The size directives also show how a second declaration
 * replaces a pending cube.
 */
module LutFiles {
  import opened Wrappers
  import opened Text
  import opened Errors
  import opened Cubes
  import opened Collecting
  import opened Luts
  import opened LutProperties

  /** The parse carried on over `ys` from where it stands after some lines. */
  function Resume(t: Transition, ys: seq<seq<Byte>>, parseF32: F32Parser): Transition
  {
    match t
    case Next(st) => Feed(st, ys, parseF32)
    case Halt(outcome) => Halt(outcome)
  }

  /** Reading `xs + ys` is reading `xs` and then, unless the parse has ended, `ys`. */
  lemma {:induction false} FeedConcat(st: State, xs: seq<seq<Byte>>, ys: seq<seq<Byte>>, parseF32: F32Parser)
    ensures Feed(st, xs + ys, parseF32) == Resume(Feed(st, xs, parseF32), ys, parseF32)
    decreases |xs|
  {
    if xs == [] {
      assert xs + ys == ys;
    } else {
      assert (xs + ys)[0] == xs[0];
      assert (xs + ys)[1..] == xs[1..] + ys;
      if xs[0] != [] {
        var t := Step(st, xs[0], parseF32);
        if t.Next? {
          FeedConcat(t.state, xs[1..], ys, parseF32);
        }
      }
    }
  }

  /** Once the parse has ended, no further line is read: what follows changes nothing. */
  lemma StopsAtHalt(st: State, xs: seq<seq<Byte>>, ys: seq<seq<Byte>>, parseF32: F32Parser)
    requires Feed(st, xs, parseF32).Halt?
    ensures Feed(st, xs + ys, parseF32) == Feed(st, xs, parseF32)
  {
    FeedConcat(st, xs, ys, parseF32);
  }

  /**
   * A line ends the parse with a `Lut` only when it is the data row that
   * fills the active collector while no primary cube is pending; the `Lut`
   * then carries the variables of the parse and the collector's own cube:
   * the one its last push hands back, with the same shape, input range and
   * rows already written, and one more triple at the cursor.
   */
  lemma OnlyFilledCubeReturns(st: State, line: seq<Byte>, parseF32: F32Parser, l: LutValue)
    requires Step(st, line, parseF32) == Halt(Returned(Ok(l)))
    ensures st.collector.Some? && st.cube.None?
    ensures var k := st.collector.value; k.cube.Some? && k.len + 3 == k.capacity
    ensures l == Finished(st, l.cube)
    ensures exists rgb: Rgb :: PushStep(st.collector.value, rgb).outcome == Returned(Ok(Some(l.cube)))
    ensures var c, n := st.collector.value.cube.value, st.collector.value.len;
      && l.cube.dim == c.dim && l.cube.size == c.size && l.cube.inputRange == c.inputRange
      && |l.cube.rgbs| == |c.rgbs| && n + 3 <= |c.rgbs|
      && l.cube.rgbs[..n] == c.rgbs[..n]
      && l.cube.rgbs[n + 3..] == c.rgbs[n + 3..]
  {
    var s := line[..|line| - 1];
    var split := SplitOnce(s, {SPACE});
    assert split.Some?;
    var a, b := split.value.0, split.value.1;
    if st.collector.None? {
      NoHeaderReturns(st, line, DirectiveOf(a), a, b, parseF32);
      assert false;
    }
    var rgb := ParseRgb(a, b, parseF32).value;
    assert PushRow(st, rgb) == Halt(Returned(Ok(l)));
    var k := st.collector.value;
    assert PushStep(k, rgb).outcome == Returned(Ok(Some(l.cube)));
    PushWritesWindow(k, rgb);
    var c, w := k.cube.value, l.cube.rgbs;
    assert w[..k.len] == c.rgbs[..k.len];
    assert w[k.len + 3..] == c.rgbs[k.len + 3..];
  }

  /** No header line ends the parse with a `Lut`. */
  lemma NoHeaderReturns(st: State, line: seq<Byte>, d: Option<Directive>, a: seq<Byte>, b: seq<Byte>, parseF32: F32Parser)
    ensures !Directed(st, line, d, a, b, parseF32).Halt? || !Directed(st, line, d, a, b, parseF32).outcome.Returned?
      || !Directed(st, line, d, a, b, parseF32).outcome.result.Ok?
  {
    if d.None? {
      match ParseRgb(a, b, parseF32)
      case None =>
      case Some(rgb) =>
        if st.shaper.Some? || st.cube.Some? {
          var c := Picked(st).value;
          assert OpenFirst(st, rgb) == OpenCollector(Unpicked(st), c, rgb);
        }
    }
  }

  /** A size directive as a line: `LUT_1D_SIZE n` or `LUT_3D_SIZE n`. */
  function SizeLineOf(dim: nat, n: U16): seq<Byte>
  {
    Spaced(SizeWord(dim), Decimal(n))
  }

  /** A size line read with no active collector. */
  lemma SizeLineRead(st: State, dim: nat, n: U16, parseF32: F32Parser)
    requires st.collector.None? && (dim == 1 || dim == 3)
    ensures Step(st, SizeLineOf(dim, n), parseF32) ==
      Next(st.(possibleShaper := st.possibleShaper || dim == 1,
               shaper := if st.possibleShaper then st.cube else st.shaper,
               cube := Some(Declared(dim, n))))
  {
    SizeLine(st, dim, Decimal(n), parseF32);
    ParseDecimal(n);
  }

  /** Two lines that do not end the parse, read one after the other. */
  lemma AdvanceTwice(st: State, lines: seq<seq<Byte>>, parseF32: F32Parser)
    requires |lines| >= 2 && lines[0] != [] && lines[1] != []
    requires Step(st, lines[0], parseF32).Next?
    requires Step(Step(st, lines[0], parseF32).state, lines[1], parseF32).Next?
    ensures Feed(st, lines, parseF32) ==
      Feed(Step(Step(st, lines[0], parseF32).state, lines[1], parseF32).state, lines[2..], parseF32)
  {
    Advance(st, lines, parseF32);
    Advance(Step(st, lines[0], parseF32).state, lines[1..], parseF32);
    assert lines[1..][1..] == lines[2..];
  }

  /** The lines after the first few. */
  lemma DropHead(head: seq<seq<Byte>>, xs: seq<seq<Byte>>, ys: seq<seq<Byte>>)
    ensures (head + xs + ys)[|head|..] == xs + ys
  {
    assert head + xs + ys == head + (xs + ys);
  }

  /**
   * With no cube pending and no collector active, a size line followed by
   * exactly as many rows as the declared cube holds triples ends the parse
   * with that cube holding the rows in order, and with no shaper.
   */
  lemma DeclaredCubeRead(st: State, dim: nat, n: U16, ws: seq<RowWords>, ts: seq<Rgb>, parseF32: F32Parser)
    requires st.collector.None? && st.cube.None? && st.shaper.None? && (dim == 1 || dim == 3)
    requires ReadAll(ws, ts, parseF32) && |ts| >= 2 && 3 * |ts| == |Declared(dim, n).rgbs|
    ensures Feed(st, [SizeLineOf(dim, n)] + RowLines(ws), parseF32) ==
      Halt(Returned(Ok(Finished(st, Declared(dim, n).(rgbs := Flatten(ts))))))
  {
    var lines := [SizeLineOf(dim, n)] + RowLines(ws);
    var st1 := st.(possibleShaper := st.possibleShaper || dim == 1, cube := Some(Declared(dim, n)));
    SizeLineRead(st, dim, n, parseF32);
    Advance(st, lines, parseF32);
    assert lines[1..] == RowLines(ws);
    FillFirst(st1, ws, ts, parseF32);
    var done := Declared(dim, n).(rgbs := Flatten(ts));
    assert Finished(Unpicked(st1), done) == Finished(st, done);
  }

  /**
   * A file declaring one cube followed by exactly as many rows as the cube
   * holds triples reads as that cube holding the rows in order, with no
   * shaper and nothing else set.
   */
  lemma OneCubeFile(dim: nat, n: U16, ws: seq<RowWords>, ts: seq<Rgb>, parseF32: F32Parser)
    requires dim == 1 || dim == 3
    requires ReadAll(ws, ts, parseF32) && |ts| >= 2 && 3 * |ts| == |Declared(dim, n).rgbs|
    ensures Run([SizeLineOf(dim, n)] + RowLines(ws), parseF32) ==
      Returned(Ok(LutValue(None, [], false, false, Declared(dim, n).(rgbs := Flatten(ts)), None, None, None)))
  {
    DeclaredCubeRead(Start, dim, n, ws, ts, parseF32);
  }

  /**
   * A title line and comment lines before the cube end up in the `Lut`: the
   * title as written after `TITLE `, the comments joined in file order.
   */
  lemma HeaderedFile(title: seq<Byte>, cs: seq<seq<Byte>>, dim: nat, n: U16, ws: seq<RowWords>, ts: seq<Rgb>,
                     parseF32: F32Parser)
    requires cs != [] && forall i :: 0 <= i < |cs| ==> IsComment(cs[i])
    requires dim == 1 || dim == 3
    requires ReadAll(ws, ts, parseF32) && |ts| >= 2 && 3 * |ts| == |Declared(dim, n).rgbs|
    ensures Run([Spaced(KeyTitle, title)] + CommentLines(cs) + ([SizeLineOf(dim, n)] + RowLines(ws)), parseF32) ==
      Returned(Ok(LutValue(Some(title), Join(cs), false, false, Declared(dim, n).(rgbs := Flatten(ts)), None, None, None)))
  {
    var body := [SizeLineOf(dim, n)] + RowLines(ws);
    var lines := [Spaced(KeyTitle, title)] + CommentLines(cs) + body;
    var st1 := Start.(title := Some(title));
    var st2 := st1.(comments := Join(cs));
    TitleLine(Start, title, parseF32);
    Advance(Start, lines, parseF32);
    DropHead([Spaced(KeyTitle, title)], CommentLines(cs), body);
    FeedConcat(st1, CommentLines(cs), body, parseF32);
    CommentsInOrder(st1, cs, parseF32);
    DeclaredCubeRead(st2, dim, n, ws, ts, parseF32);
  }

  /**
   * A file declaring one cube whose rows stop short of filling it ends in
   * `Eof`: the parse returns nothing before the primary cube is full.
   */
  lemma TruncatedCubeIsEof(dim: nat, n: U16, ws: seq<RowWords>, ts: seq<Rgb>, parseF32: F32Parser)
    requires dim == 1 || dim == 3
    requires ReadAll(ws, ts, parseF32) && 3 * |ts| < |Declared(dim, n).rgbs|
    ensures Run([SizeLineOf(dim, n)] + RowLines(ws), parseF32) == Returned(Err(Eof))
  {
    var lines := [SizeLineOf(dim, n)] + RowLines(ws);
    var c := Declared(dim, n);
    var st := Start.(possibleShaper := dim == 1, cube := Some(c));
    SizeLineRead(Start, dim, n, parseF32);
    Advance(Start, lines, parseF32);
    assert lines[1..] == RowLines(ws);
    if ts != [] {
      var k := CollectorValue(Some(c.(rgbs := ts[0] + c.rgbs[3..])), 3, |c.rgbs|);
      var st' := Unpicked(st).(collector := Some(k));
      FirstRowOpens(st, ws[0], ts[0], parseF32);
      assert Step(st, RowLine(ws[0]), parseF32) == Next(st');
      Advance(st, RowLines(ws), parseF32);
      assert RowLines(ws)[1..] == RowLines(ws[1..]);
      ReadAllTail(ws, ts, parseF32);
      PartialRows(st', ws[1..], ts[1..], parseF32);
    }
  }

  /**
   * A file declaring a 1D shaper of size `m` and then a 3D cube of size `n`,
   * followed by the shaper's rows and then the cube's, reads as both tables
   * holding their rows in order.
   */
  lemma ShaperThenCubeFile(m: U16, n: U16, ws1: seq<RowWords>, ts1: seq<Rgb>, ws3: seq<RowWords>, ts3: seq<Rgb>,
                           parseF32: F32Parser)
    requires ReadAll(ws1, ts1, parseF32) && |ts1| == m as int && m >= 2
    requires ReadAll(ws3, ts3, parseF32) && ts3 != [] && 3 * |ts3| == |ThreeDValue(n).rgbs|
    ensures Run([SizeLineOf(1, m), SizeLineOf(3, n)] + RowLines(ws1) + RowLines(ws3), parseF32) ==
      Returned(Ok(LutValue(None, [], false, false, ThreeDValue(n).(rgbs := Flatten(ts3)),
                           Some(OneDValue(m).(rgbs := Flatten(ts1))), None, None)))
  {
    var headers := [SizeLineOf(1, m), SizeLineOf(3, n)];
    var lines := headers + RowLines(ws1) + RowLines(ws3);
    var st1 := Start.(possibleShaper := true, cube := Some(OneDValue(m)));
    var st2 := st1.(shaper := Some(OneDValue(m)), cube := Some(ThreeDValue(n)));
    SizeLineRead(Start, 1, m, parseF32);
    SizeLineRead(st1, 3, n, parseF32);
    AdvanceTwice(Start, lines, parseF32);
    DropHead(headers, RowLines(ws1), RowLines(ws3));
    FeedConcat(st2, RowLines(ws1), RowLines(ws3), parseF32);
    var shaper := OneDValue(m).(rgbs := Flatten(ts1));
    FillFirst(st2, ws1, ts1, parseF32);
    var st3 := st2.(shaper := Some(shaper), cube := None, collector := Some(Started(ThreeDValue(n))));
    assert Completed(Unpicked(st2), shaper) == Next(st3);
    FillingRows(st3, ws3, ts3, parseF32);
    assert FilledCube(Started(ThreeDValue(n)), ts3) == ThreeDValue(n).(rgbs := Flatten(ts3)) by {
      assert ThreeDValue(n).rgbs[..0] + Flatten(ts3) == Flatten(ts3);
    }
  }

  /**
   * A primary cube of size 1 behind a shaper is not lost: its collector is
   * opened when the shaper completes, so its single row completes it through
   * an ordinary push and the `Lut` is returned.
   */
  lemma SizeOnePrimaryKept(m: U16, ws1: seq<RowWords>, ts1: seq<Rgb>, w: RowWords, t: Rgb, parseF32: F32Parser)
    requires ReadAll(ws1, ts1, parseF32) && |ts1| == m as int && m >= 2
    requires ReadsAs(w, t, parseF32)
    ensures Run([SizeLineOf(1, m), SizeLineOf(3, 1)] + RowLines(ws1) + [RowLine(w)], parseF32) ==
      Returned(Ok(LutValue(None, [], false, false, ThreeDValue(1).(rgbs := t),
                           Some(OneDValue(m).(rgbs := Flatten(ts1))), None, None)))
  {
    assert RowLines([w]) == [RowLine(w)];
    assert ReadAll([w], [t], parseF32);
    assert Flatten([t]) == t by { assert Flatten([t]) == t + Flatten([]); }
    ShaperThenCubeFile(m, 1, ws1, ts1, [w], [t], parseF32);
  }

  /**
   * A cube of size 1 holds a single triple: the first row fills it, and
   * since what the first push returns is dropped, the cube is lost. The
   * file then ends in `Eof`, and a second row finds the collector empty.
   */
  lemma SizeOneCubeIsLost(dim: nat, w: RowWords, t: Rgb, w2: RowWords, t2: Rgb, parseF32: F32Parser)
    requires dim == 1 || dim == 3
    requires ReadsAs(w, t, parseF32) && ReadsAs(w2, t2, parseF32)
    ensures Run([SizeLineOf(dim, 1), RowLine(w)], parseF32) == Returned(Err(Eof))
    ensures Run([SizeLineOf(dim, 1), RowLine(w), RowLine(w2)], parseF32) == Returned(Err(CubeIsFull))
  {
    var st := Start.(possibleShaper := dim == 1, cube := Some(Declared(dim, 1)));
    var st' := Unpicked(st).(collector := Some(CollectorValue(None, 3, 3)));
    SizeLineRead(Start, dim, 1, parseF32);
    FirstRowOpens(st, w, t, parseF32);
    assert Step(st, RowLine(w), parseF32) == Next(st');
    AdvanceTwice(Start, [SizeLineOf(dim, 1), RowLine(w)], parseF32);
    AdvanceTwice(Start, [SizeLineOf(dim, 1), RowLine(w), RowLine(w2)], parseF32);
    RowStep(st', w2, t2, parseF32);
    assert [SizeLineOf(dim, 1), RowLine(w), RowLine(w2)][2..] == [RowLine(w2)];
  }

  /** A cube of size 0 has no room for a row: the first row panics. */
  lemma SizeZeroPanics(dim: nat, w: RowWords, t: Rgb, parseF32: F32Parser)
    requires dim == 1 || dim == 3
    requires ReadsAs(w, t, parseF32)
    ensures Run([SizeLineOf(dim, 0), RowLine(w)], parseF32) == Panicked
  {
    var lines := [SizeLineOf(dim, 0), RowLine(w)];
    var st := Start.(possibleShaper := dim == 1, cube := Some(Declared(dim, 0)));
    SizeLineRead(Start, dim, 0, parseF32);
    Advance(Start, lines, parseF32);
    assert lines[1..] == [RowLine(w)];
    FirstRowOpens(st, w, t, parseF32);
  }

  /**
   * After a 1D size, every size directive moves the pending cube to the
   * shaper slot, whatever its dimension: `1D m, 3D n, 3D q` leaves the 3D
   * cube of size `n` as the shaper, and the 1D cube is gone.
   */
  lemma ThreeDShaper(m: U16, n: U16, q: U16, parseF32: F32Parser)
    ensures Feed(Start, [SizeLineOf(1, m), SizeLineOf(3, n), SizeLineOf(3, q)], parseF32) ==
      Next(Start.(possibleShaper := true, shaper := Some(ThreeDValue(n)), cube := Some(ThreeDValue(q))))
  {
    var lines := [SizeLineOf(1, m), SizeLineOf(3, n), SizeLineOf(3, q)];
    var st1 := Start.(possibleShaper := true, cube := Some(OneDValue(m)));
    var st2 := st1.(shaper := Some(OneDValue(m)), cube := Some(ThreeDValue(n)));
    SizeLineRead(Start, 1, m, parseF32);
    SizeLineRead(st1, 3, n, parseF32);
    SizeLineRead(st2, 3, q, parseF32);
    AdvanceTwice(Start, lines, parseF32);
    assert lines[2..] == [SizeLineOf(3, q)];
  }

  /**
   * A 3D size directive before any 1D one leaves the shaper slot alone: a
   * 1D size that follows replaces the pending 3D cube, which is lost.
   */
  lemma ThreeDFirstReplaced(n: U16, m: U16, parseF32: F32Parser)
    ensures Feed(Start, [SizeLineOf(3, n), SizeLineOf(1, m)], parseF32) ==
      Next(Start.(possibleShaper := true, cube := Some(OneDValue(m))))
  {
    var st1 := Start.(cube := Some(ThreeDValue(n)));
    SizeLineRead(Start, 3, n, parseF32);
    SizeLineRead(st1, 1, m, parseF32);
    AdvanceTwice(Start, [SizeLineOf(3, n), SizeLineOf(1, m)], parseF32);
  }
}
